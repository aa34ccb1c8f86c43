/**
 The part of etcd this system uses: durable node and info records, liveness and container keys
 that hang on a lease, and recover keys. Each operation is atomic; the deletion of all keys of an
 expired lease is one operation. `Keys` shows that these families never share a key.
 */
module Store {
  // core.ProtocolInfo: one protocol at one container address.
  datatype ProtocolInfo = ProtocolInfo(addr: string, ptype: string, id: string)

  datatype DeviceInfo = DeviceInfo(deviceId: string, deviceName: string)

  // core.ProtocolInfoDetail: what is needed to start the protocol elsewhere.
  datatype Detail = Detail(deviceGroupId: string, devices: seq<DeviceInfo>)

  datatype Store = Store(
    records: set<ProtocolInfo>,      // BuildNodeKey, durable
    infos: map<string, Detail>,      // BuildInfoKey, durable
    leased: map<ProtocolInfo, nat>,  // BuildKey, with the lease it was put under
    up: map<string, nat>,            // NodeInfo.BuildKey, with its lease
    leases: set<nat>,                // leases that have not expired
    recover: set<string>)            // BuildRecoverKey, durable
  {
    function PutRecord(r: ProtocolInfo): Store {
      this.(records := records + {r})
    }

    function DeleteRecord(r: ProtocolInfo): Store {
      this.(records := records - {r})
    }

    function PutInfo(id: string, d: Detail): Store {
      this.(infos := infos[id := d])
    }

    // A put under an expired lease is refused.
    function PutLeased(r: ProtocolInfo, lease: nat): Store {
      if lease in leases then this.(leased := leased[r := lease]) else this
    }

    function DeleteLeased(r: ProtocolInfo): Store {
      this.(leased := leased - {r})
    }

    function PutUp(addr: string, lease: nat): Store {
      if lease in leases then this.(up := up[addr := lease]) else this
    }

    function PutRecover(addr: string): Store {
      this.(recover := recover + {addr})
    }

    function DeleteRecover(addr: string): Store {
      this.(recover := recover - {addr})
    }

    function Expire(lease: nat): Store {
      this.(leases := leases - {lease},
      leased := map r | r in leased && leased[r] != lease :: leased[r],
      up := map a | a in up && up[a] != lease :: up[a])
    }
  }

  // A range read of the node records of `a`: it returns every record whose address starts with it.
  ghost predicate IsScan(kvs: seq<ProtocolInfo>, store: Store, a: string) {
    forall r :: r in kvs <==> r in store.records && a <= r.addr
  }

  // A DELETE event on a container's node key, given the scan of its records.
  function NodeGone(store: Store, a: string, kvs: seq<ProtocolInfo>): Store {
    if kvs == [] then store else store.PutRecover(a)
  }
}
