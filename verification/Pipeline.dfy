/**
 The channel handler pipeline of `pkg/protocol/core/pipeline.go` and the predicate handlers of
 `pkg/protocol/core/channel_handler.go`: a doubly linked list of contexts with a name index, and
 messages that walk it by mutual recursion between contexts and handlers.

 The list is proved to be a sequence, and the walk to be a filter and a cut over that sequence.
 A `Deal` function is a call recorded in the trace; it does not re-enter the pipeline.
 */
module Pipeline {
  import opened Wrappers

  datatype Message = Message(protocolType: string, deviceGroupId: string, deviceId: string)

  // `data interface{}`: either a *Message or anything else.
  datatype Data = Msg(message: Message) | Other

  datatype Direction = Up | Down

  // A handler: which of the two stream interfaces it implements, and for each direction its
  // predicate (None is the nil function) and whether it has a Deal function.
  datatype Handler = Handler(
    handlesUp: bool,
    handlesDown: bool,
    predicateUp: Option<Message -> bool>,
    predicateDown: Option<Message -> bool>,
    dealsUp: bool,
    dealsDown: bool)
  {
    predicate Handles(dir: Direction) {
      if dir.Up? then handlesUp else handlesDown
    }

    predicate Accepts(dir: Direction, m: Message) {
      && Handles(dir)
      && var p := if dir.Up? then predicateUp else predicateDown;
         p.None? || p.value(m)
    }

    predicate Deals(dir: Direction) {
      if dir.Up? then dealsUp else dealsDown
    }

    // OnChannelUpStream. The context is the handler's own position in the list.
    method OnChannelUpStream(context: Context, data: Data, ghost nodes: seq<Context>, ghost i: nat)
      returns (trace: seq<string>)
      requires NextLinked(nodes) && i < |nodes| && nodes[i] == context && context.handler == this
      requires handlesUp
      ensures trace == DealsAlong(Up, Entries(nodes)[i..], data)
      decreases |nodes| - i, 2
    {
      DealsStep(Up, Entries(nodes)[i..], data);
      match data
      case Msg(message) =>
        if predicateUp.Some? && !predicateUp.value(message) {
          trace := context.SendUpStream(data, nodes, i);
          return;
        }
        if !dealsUp {
          return [];
        }
        var rest := context.SendUpStream(data, nodes, i);
        trace := [context.name] + rest;
      case Other =>
        trace := context.SendUpStream(data, nodes, i);
    }

    // OnChannelDownStream
    method OnChannelDownStream(context: Context, data: Data, ghost nodes: seq<Context>, ghost i: nat)
      returns (trace: seq<string>)
      requires PrevLinked(nodes) && i < |nodes| && nodes[i] == context && context.handler == this
      requires handlesDown
      ensures trace == DealsAlong(Down, Reverse(Entries(nodes)[..i + 1]), data)
      decreases i, 2
    {
      ReverseLast(Entries(nodes), i);
      DealsStep(Down, Reverse(Entries(nodes)[..i + 1]), data);
      match data
      case Msg(message) =>
        if predicateDown.Some? && !predicateDown.value(message) {
          trace := context.SendDownStream(data, nodes, i);
          return;
        }
        if !dealsDown {
          return [];
        }
        var rest := context.SendDownStream(data, nodes, i);
        trace := [context.name] + rest;
      case Other =>
        trace := context.SendDownStream(data, nodes, i);
    }
  }

  // ---------------------------------------------------------------- the handler constructors

  function NewSimpleAllChannelHandler(dealDown: bool, dealUp: bool): Handler {
    Handler(true, true, Some(m => true), Some(m => true), dealUp, dealDown)
  }

  function NewSimpleUpChannelHandler(dealUp: bool): Handler {
    Handler(true, true, Some(m => true), Some(m => false), dealUp, false)
  }

  function NewSimpleDownChannelHandler(dealDown: bool): Handler {
    Handler(true, true, Some(m => false), Some(m => true), false, dealDown)
  }

  function NewSimpleUpProtocolTypeChannelHandler(t: string, dealUp: bool): Handler {
    Handler(true, true, Some((m: Message) => m.protocolType != "" && t == m.protocolType), Some(m => false),
            dealUp, false)
  }

  function NewSimpleDownProtocolTypeChannelHandler(t: string, dealDown: bool): Handler {
    Handler(true, true, Some(m => false), Some((m: Message) => m.protocolType != "" && t == m.protocolType),
            false, dealDown)
  }

  // ---------------------------------------------------------------- the reference walk

  datatype Entry = Entry(name: string, handler: Handler)

  ghost function Filter<T>(f: T -> bool, s: seq<T>): seq<T> {
    if s == [] then []
    else if f(s[0]) then [s[0]] + Filter(f, s[1..])
    else Filter(f, s[1..])
  }

  ghost function TakeWhile<T>(f: T -> bool, s: seq<T>): seq<T> {
    if s == [] || !f(s[0]) then [] else [s[0]] + TakeWhile(f, s[1..])
  }

  ghost function Reverse<T>(s: seq<T>): seq<T> {
    if s == [] then [] else Reverse(s[1..]) + [s[0]]
  }

  ghost function Names(es: seq<Entry>): (r: seq<string>)
    ensures |r| == |es| && forall i :: 0 <= i < |es| ==> r[i] == es[i].name
  {
    seq(|es|, i requires 0 <= i < |es| => es[i].name)
  }

  ghost function Accepting(dir: Direction, m: Message): Entry -> bool {
    (e: Entry) => e.handler.Accepts(dir, m)
  }

  ghost function Dealing(dir: Direction): Entry -> bool {
    (e: Entry) => e.handler.Deals(dir)
  }

  // The Deal calls a datum causes along the entries `es`, in the order it meets them: the
  // accepting handlers, cut just before the first of them that has no Deal function.
  ghost function DealsAlong(dir: Direction, es: seq<Entry>, data: Data): seq<string> {
    match data
    case Other => []
    case Msg(m) => Names(TakeWhile(Dealing(dir), Filter(Accepting(dir, m), es)))
  }

  lemma DealsStep(dir: Direction, es: seq<Entry>, data: Data)
    requires es != []
    ensures DealsAlong(dir, es, data) ==
            if data.Other? || !es[0].handler.Accepts(dir, data.message) then DealsAlong(dir, es[1..], data)
            else if !es[0].handler.Deals(dir) then []
            else [es[0].name] + DealsAlong(dir, es[1..], data)
  {
    if data.Msg? && es[0].handler.Accepts(dir, data.message) {
      var rest := Filter(Accepting(dir, data.message), es[1..]);
      assert ([es[0]] + rest)[1..] == rest;
    }
  }

  // Handlers that do not implement the direction are invisible to it.
  lemma {:induction false} DealsSkip(dir: Direction, es: seq<Entry>, k: nat, data: Data)
    requires k <= |es|
    requires forall j :: 0 <= j < k ==> !es[j].handler.Handles(dir)
    ensures DealsAlong(dir, es, data) == DealsAlong(dir, es[k..], data)
  {
    if k == 0 {
      assert es[0..] == es;
    } else {
      DealsStep(dir, es, data);
      DealsSkip(dir, es[1..], k - 1, data);
      assert es[1..][k - 1..] == es[k..];
    }
  }

  lemma {:induction false} ReverseAppend<T>(s: seq<T>, x: T)
    ensures Reverse(s + [x]) == [x] + Reverse(s)
  {
    if s == [] {
      assert [] + [x] == [x];
    } else {
      assert (s + [x])[1..] == s[1..] + [x] && (s + [x])[0] == s[0];
      ReverseAppend(s[1..], x);
    }
  }

  lemma ReverseLast<T>(s: seq<T>, i: nat)
    requires i < |s|
    ensures Reverse(s[..i + 1]) == [s[i]] + Reverse(s[..i])
  {
    assert s[..i + 1] == s[..i] + [s[i]];
    ReverseAppend(s[..i], s[i]);
  }

  lemma {:induction false} DealsSkipBack(es: seq<Entry>, i: nat, k: nat, data: Data)
    requires k <= i <= |es|
    requires forall j :: k <= j < i ==> !es[j].handler.handlesDown
    ensures DealsAlong(Down, Reverse(es[..i]), data) == DealsAlong(Down, Reverse(es[..k]), data)
    decreases i
  {
    if k < i {
      ReverseLast(es, i - 1);
      var r := Reverse(es[..i]);
      DealsStep(Down, r, data);
      assert r[1..] == Reverse(es[..i - 1]);
      DealsSkipBack(es, i - 1, k, data);
    }
  }

  /**
   Handlers that treat both directions alike are called on the way down in the reverse of the order
   in which they are called on the way up.
   */
  lemma {:induction false} DownReversesUp(es: seq<Entry>, data: Data)
    requires forall e :: e in es ==> e.handler.dealsUp && e.handler.dealsDown
    requires data.Msg? ==> forall e :: e in es ==>
               (e.handler.Accepts(Up, data.message) <==> e.handler.Accepts(Down, data.message))
    ensures DealsAlong(Down, Reverse(es), data) == Reverse(DealsAlong(Up, es, data))
  {
    if es != [] {
      DealsStep(Up, es, data);
      DownReversesUp(es[1..], data);
      forall x | x in Reverse(es[1..])
        ensures x.handler.dealsDown
      {
        ReverseKeepsMembers(es[1..], x);
      }
      DealsAppend(Reverse(es[1..]), es[0], data);
    }
  }

  lemma {:induction false} ReverseKeepsMembers<T>(s: seq<T>, x: T)
    ensures x in Reverse(s) <==> x in s
  {
    if s != [] {
      ReverseKeepsMembers(s[1..], x);
      assert s == [s[0]] + s[1..];
    }
  }

  // One more entry at the end of a downward walk that nothing cuts short.
  lemma {:induction false} DealsAppend(es: seq<Entry>, e: Entry, data: Data)
    requires forall x :: x in es ==> x.handler.dealsDown
    requires e.handler.dealsDown
    ensures DealsAlong(Down, es + [e], data) ==
            DealsAlong(Down, es, data) + (if data.Msg? && e.handler.Accepts(Down, data.message) then [e.name] else [])
  {
    DealsStep(Down, es + [e], data);
    if es == [] {
      assert (es + [e])[1..] == [];
    } else {
      assert (es + [e])[1..] == es[1..] + [e];
      DealsStep(Down, es, data);
      DealsAppend(es[1..], e, data);
    }
  }

  /**
   What one handler does to a message, in the terms of its fields: it is passed by if it does not
   implement the direction or its predicate says no, stops the message if it has no Deal function,
   and is called otherwise. Anything that is not a message calls nobody.
   */
  lemma HandlerMeaning(name: string, h: Handler, es: seq<Entry>, m: Message, dir: Direction)
    ensures DealsAlong(Up, [Entry(name, h)] + es, Msg(m)) ==
            if !h.handlesUp || (h.predicateUp.Some? && !h.predicateUp.value(m)) then DealsAlong(Up, es, Msg(m))
            else if !h.dealsUp then []
            else [name] + DealsAlong(Up, es, Msg(m))
    ensures DealsAlong(Down, [Entry(name, h)] + es, Msg(m)) ==
            if !h.handlesDown || (h.predicateDown.Some? && !h.predicateDown.value(m)) then DealsAlong(Down, es, Msg(m))
            else if !h.dealsDown then []
            else [name] + DealsAlong(Down, es, Msg(m))
    ensures DealsAlong(dir, [], Msg(m)) == [] && DealsAlong(dir, es, Other) == []
  {
    var all := [Entry(name, h)] + es;
    assert all[1..] == es;
    DealsStep(Up, all, Msg(m));
    DealsStep(Down, all, Msg(m));
  }

  /** A handler for both directions is called whenever it has a function for the direction. */
  lemma AllHandlerMeaning(name: string, dealDown: bool, dealUp: bool, es: seq<Entry>, m: Message)
    ensures var all := [Entry(name, NewSimpleAllChannelHandler(dealDown, dealUp))] + es;
            && DealsAlong(Up, all, Msg(m)) == (if dealUp then [name] + DealsAlong(Up, es, Msg(m)) else [])
            && DealsAlong(Down, all, Msg(m)) == (if dealDown then [name] + DealsAlong(Down, es, Msg(m)) else [])
  {
    HandlerMeaning(name, NewSimpleAllChannelHandler(dealDown, dealUp), es, m, Up);
  }

  /** An up handler is called for every message going up, and lets every message going down pass. */
  lemma UpHandlerMeaning(name: string, deal: bool, es: seq<Entry>, m: Message)
    ensures var all := [Entry(name, NewSimpleUpChannelHandler(deal))] + es;
            && DealsAlong(Up, all, Msg(m)) == (if deal then [name] + DealsAlong(Up, es, Msg(m)) else [])
            && DealsAlong(Down, all, Msg(m)) == DealsAlong(Down, es, Msg(m))
  {
    HandlerMeaning(name, NewSimpleUpChannelHandler(deal), es, m, Up);
  }

  lemma DownHandlerMeaning(name: string, deal: bool, es: seq<Entry>, m: Message)
    ensures var all := [Entry(name, NewSimpleDownChannelHandler(deal))] + es;
            && DealsAlong(Up, all, Msg(m)) == DealsAlong(Up, es, Msg(m))
            && DealsAlong(Down, all, Msg(m)) == (if deal then [name] + DealsAlong(Down, es, Msg(m)) else [])
  {
    HandlerMeaning(name, NewSimpleDownChannelHandler(deal), es, m, Up);
  }

  /** A handler for one protocol type takes only messages of that type, and none without a type. */
  lemma UpTypeHandlerMeaning(name: string, t: string, deal: bool, es: seq<Entry>, m: Message)
    ensures var all := [Entry(name, NewSimpleUpProtocolTypeChannelHandler(t, deal))] + es;
            && DealsAlong(Up, all, Msg(m)) ==
               (if m.protocolType == "" || m.protocolType != t then DealsAlong(Up, es, Msg(m))
                else if deal then [name] + DealsAlong(Up, es, Msg(m)) else [])
            && DealsAlong(Down, all, Msg(m)) == DealsAlong(Down, es, Msg(m))
  {
    HandlerMeaning(name, NewSimpleUpProtocolTypeChannelHandler(t, deal), es, m, Up);
  }

  lemma DownTypeHandlerMeaning(name: string, t: string, deal: bool, es: seq<Entry>, m: Message)
    ensures var all := [Entry(name, NewSimpleDownProtocolTypeChannelHandler(t, deal))] + es;
            && DealsAlong(Up, all, Msg(m)) == DealsAlong(Up, es, Msg(m))
            && DealsAlong(Down, all, Msg(m)) ==
               (if m.protocolType == "" || m.protocolType != t then DealsAlong(Down, es, Msg(m))
                else if deal then [name] + DealsAlong(Down, es, Msg(m)) else [])
  {
    HandlerMeaning(name, NewSimpleDownProtocolTypeChannelHandler(t, deal), es, m, Up);
  }

  // ---------------------------------------------------------------- contexts

  class Context {
    var next: Context?
    var prev: Context?
    const name: string
    const handler: Handler
    const canHandleDownStream: bool := handler.handlesDown
    const canHandleUpStream: bool := handler.handlesUp

    constructor (name: string, handler: Handler, next: Context?, prev: Context?)
      ensures this.name == name && this.handler == handler && this.next == next && this.prev == prev
    {
      this.name, this.handler, this.next, this.prev := name, handler, next, prev;
    }

    method SendUpStream(data: Data, ghost nodes: seq<Context>, ghost i: nat) returns (trace: seq<string>)
      requires NextLinked(nodes) && i < |nodes| && nodes[i] == this
      ensures trace == DealsAlong(Up, Entries(nodes)[i + 1..], data)
      decreases |nodes| - i, 1
    {
      var up, k := FirstUpFrom(next, nodes, i + 1);
      SkipTo(nodes, i + 1, k, data);
      if up == null {
        return [];
      }
      trace := up.handler.OnChannelUpStream(up, data, nodes, k);
    }

    method SendDownStream(data: Data, ghost nodes: seq<Context>, ghost i: nat) returns (trace: seq<string>)
      requires PrevLinked(nodes) && i < |nodes| && nodes[i] == this
      ensures trace == DealsAlong(Down, Reverse(Entries(nodes)[..i]), data)
      decreases i, 1
    {
      var down, k := FirstDownFrom(prev, nodes, i);
      DealsSkipBack(Entries(nodes), i, k, data);
      if down == null {
        return [];
      }
      trace := down.handler.OnChannelDownStream(down, data, nodes, k - 1);
    }
  }

  ghost function At(nodes: seq<Context>, i: int): Context? {
    if 0 <= i < |nodes| then nodes[i] else null
  }

  // What an upward walk follows, and a downward walk.
  ghost predicate NextLinked(nodes: seq<Context>)
    reads nodes
  {
    forall i {:trigger nodes[i].next} :: 0 <= i < |nodes| ==> nodes[i].next == At(nodes, i + 1)
  }

  ghost predicate PrevLinked(nodes: seq<Context>)
    reads nodes
  {
    forall i {:trigger nodes[i].prev} :: 0 <= i < |nodes| ==> nodes[i].prev == At(nodes, i - 1)
  }

  // next and prev are mutual inverses along one acyclic sequence.
  ghost predicate Linked(nodes: seq<Context>)
    reads nodes
  {
    NextLinked(nodes) && PrevLinked(nodes) && Distinct(nodes)
  }

  ghost predicate Distinct(nodes: seq<Context>) {
    forall i, j :: 0 <= i < j < |nodes| ==> nodes[i] != nodes[j]
  }

  ghost function Entries(nodes: seq<Context>): (es: seq<Entry>)
    ensures |es| == |nodes|
    ensures forall i :: 0 <= i < |es| ==> es[i] == Entry(nodes[i].name, nodes[i].handler)
  {
    seq(|nodes|, i requires 0 <= i < |nodes| => Entry(nodes[i].name, nodes[i].handler))
  }

  lemma SkipTo(nodes: seq<Context>, i: nat, k: nat, data: Data)
    requires i <= k <= |nodes|
    requires forall j :: i <= j < k ==> !nodes[j].handler.handlesUp
    ensures DealsAlong(Up, Entries(nodes)[i..], data) == DealsAlong(Up, Entries(nodes)[k..], data)
  {
    DealsSkip(Up, Entries(nodes)[i..], k - i, data);
    assert Entries(nodes)[i..][k - i..] == Entries(nodes)[k..];
  }

  // getUpStreamChannelHandlerContext, of the pipeline from `start` and of a context from its next.
  method FirstUpFrom(start: Context?, ghost nodes: seq<Context>, ghost i: nat)
    returns (found: Context?, ghost k: nat)
    requires NextLinked(nodes) && i <= |nodes| && start == At(nodes, i)
    ensures i <= k <= |nodes| && found == At(nodes, k)
    ensures forall j :: i <= j < k ==> !nodes[j].handler.handlesUp
    ensures found != null ==> found.handler.handlesUp
  {
    found, k := start, i;
    if found == null {
      return;
    }
    while !found.canHandleUpStream
      invariant i <= k < |nodes| && found == nodes[k]
      invariant forall j :: i <= j < k ==> !nodes[j].handler.handlesUp
      decreases |nodes| - k
    {
      found, k := found.next, k + 1;
      if found == null {
        return;
      }
    }
  }

  // getDownStreamChannelHandlerContext. The walk stops at node k - 1, or k is 0.
  method FirstDownFrom(start: Context?, ghost nodes: seq<Context>, ghost i: nat)
    returns (found: Context?, ghost k: nat)
    requires PrevLinked(nodes) && i <= |nodes| && start == At(nodes, i - 1)
    ensures k <= i && found == At(nodes, k - 1)
    ensures forall j :: k <= j < i ==> !nodes[j].handler.handlesDown
    ensures found != null ==> found.handler.handlesDown
  {
    found, k := start, i;
    if found == null {
      return;
    }
    while !found.canHandleDownStream
      invariant 0 < k <= i && found == nodes[k - 1]
      invariant forall j :: k <= j < i ==> !nodes[j].handler.handlesDown
      decreases k
    {
      found, k := found.prev, k - 1;
      if found == null {
        return;
      }
    }
  }

  // ---------------------------------------------------------------- the name index

  // Every listed node is found under its name. Other names may linger after a Replace.
  ghost predicate Indexes(m: map<string, Context>, nodes: seq<Context>) {
    forall i :: 0 <= i < |nodes| ==> nodes[i].name in m && m[nodes[i].name] == nodes[i]
  }

  // The index has no other names: with distinct nodes, that is a matter of counting.
  ghost predicate IndexesExactly(m: map<string, Context>, nodes: seq<Context>) {
    Indexes(m, nodes) && |m| == |nodes|
  }

  ghost predicate Listed(name: string, es: seq<Entry>) {
    exists i :: 0 <= i < |es| && es[i].name == name
  }

  lemma {:induction false} IndexedNameIsListed(m: map<string, Context>, nodes: seq<Context>, name: string)
    returns (i: nat)
    requires IndexesExactly(m, nodes) && Distinct(nodes) && name in m
    ensures i < |nodes| && nodes[i].name == name
    decreases |nodes|
  {
    var k := |nodes| - 1;
    if nodes == [] {
      assert false;
    } else if nodes[k].name == name {
      i := k;
    } else {
      var rest := m - {nodes[k].name};
      assert rest.Keys == m.Keys - {nodes[k].name};
      assert |rest.Keys| == |m.Keys| - 1;
      i := IndexedNameIsListed(rest, nodes[..k], name);
    }
  }

  /** The index knows exactly the listed names, and finds each name's own node. */
  lemma IndexIsExact(m: map<string, Context>, nodes: seq<Context>, name: string)
    requires IndexesExactly(m, nodes) && Distinct(nodes)
    ensures name in m <==> Listed(name, Entries(nodes))
    ensures name in m ==> m[name] in nodes && m[name].name == name
  {
    if name in m {
      var i := IndexedNameIsListed(m, nodes, name);
      assert Entries(nodes)[i].name == name;
    }
  }

  // The index consists of the listed names, and of stale ones that find an old handler.
  ghost predicate Splits(m: map<string, Context>, listed: map<string, Context>, stale: map<string, Handler>) {
    && (forall n :: n in m <==> n in listed || n in stale)
    && (forall n :: n in listed ==> n !in stale && m[n] == listed[n])
    && (forall n :: n in stale ==> m[n].handler == stale[n])
  }

  // The index is empty exactly if nothing is listed and nothing is stale.
  lemma CountIndex(m: map<string, Context>, listed: map<string, Context>, stale: map<string, Handler>,
                   nodes: seq<Context>)
    requires Splits(m, listed, stale) && IndexesExactly(listed, nodes)
    ensures |m| == 0 <==> nodes == [] && stale == map[]
  {
    if |m| == 0 {
      assert m == map[] && listed == map[];
    }
    if nodes == [] && stale == map[] {
      assert listed == map[] && m == map[];
    }
  }

  lemma TakenNames(m: map<string, Context>, listed: map<string, Context>, stale: map<string, Handler>,
                   nodes: seq<Context>, name: string)
    requires Splits(m, listed, stale) && IndexesExactly(listed, nodes) && Distinct(nodes)
    ensures name in m <==> Listed(name, Entries(nodes)) || name in stale
    ensures |m| == 0 <==> nodes == [] && stale == map[]
    ensures |m| == 0 ==> name !in m
  {
    IndexIsExact(listed, nodes, name);
    CountIndex(m, listed, stale, nodes);
  }

  lemma SplitsAfterPush(m: map<string, Context>, listed: map<string, Context>, stale: map<string, Handler>, c: Context)
    requires Splits(m, listed, stale) && c.name !in m
    ensures Splits(m[c.name := c], listed[c.name := c], stale) && c.name !in listed
  {}

  lemma SplitsAfterPop(m: map<string, Context>, listed: map<string, Context>, stale: map<string, Handler>, name: string)
    requires Splits(m, listed, stale) && name in listed
    ensures Splits(m - {name}, listed - {name}, stale)
  {}

  lemma SplitsAfterReplace(m: map<string, Context>, listed: map<string, Context>, stale: map<string, Handler>,
                           node: Context, c: Context)
    requires Splits(m, listed, stale) && node.name in listed && listed[node.name] == node && c.name !in m
    ensures c.name !in listed
    ensures Splits(m[c.name := c], listed[c.name := c] - {node.name}, stale[node.name := node.handler])
  {}

  lemma IndexAfterPush(m: map<string, Context>, nodes: seq<Context>, c: Context, after: seq<Context>)
    requires IndexesExactly(m, nodes) && c.name !in m
    requires after == [c] + nodes || after == nodes + [c]
    ensures IndexesExactly(m[c.name := c], after)
  {}

  lemma IndexAfterPop(m: map<string, Context>, nodes: seq<Context>, k: nat, after: seq<Context>)
    requires IndexesExactly(m, nodes) && k < |nodes| && Distinct(nodes)
    requires (k == 0 && after == nodes[1..]) || (k == |nodes| - 1 && after == nodes[..k])
    ensures IndexesExactly(m - {nodes[k].name}, after)
  {}

  // One node gives its place to another; its name leaves the index of listed names.
  lemma IndexAfterReplace(m: map<string, Context>, nodes: seq<Context>, k: nat, c: Context)
    requires IndexesExactly(m, nodes) && k < |nodes| && Distinct(nodes) && c.name !in m
    ensures IndexesExactly(m[c.name := c] - {nodes[k].name}, nodes[k := c])
  {}

  lemma EntriesAfterPush(nodes: seq<Context>, c: Context)
    ensures Entries([c] + nodes) == [Entry(c.name, c.handler)] + Entries(nodes)
    ensures Entries(nodes + [c]) == Entries(nodes) + [Entry(c.name, c.handler)]
  {}

  lemma EntriesAfterPop(nodes: seq<Context>)
    requires nodes != []
    ensures Entries(nodes[1..]) == Entries(nodes)[1..]
    ensures Entries(nodes[..|nodes| - 1]) == Entries(nodes)[..|nodes| - 1]
  {}

  // ---------------------------------------------------------------- the pipeline

  class ChannelHandlerPipeline {
    var head: Context?
    var tail: Context?
    var channelMap: map<string, Context>

    // The listed contexts, and the index of their names; the names that Replace has left in the
    // index, with the handlers they still find; and the removed context that head or tail is left
    // with when the list has been emptied while such names remain.
    ghost var nodes: seq<Context>
    ghost var listed: map<string, Context>
    ghost var stale: map<string, Handler>
    ghost var lost: seq<Context>

    // A walk up from the head, and one down from the tail, meets exactly `ns`.
    ghost predicate SpellsUp(ns: seq<Context>)
      reads this, ns
    {
      NextLinked(ns) && head == At(ns, 0)
    }

    ghost predicate SpellsDown(ns: seq<Context>)
      reads this, ns
    {
      PrevLinked(ns) && tail == At(ns, |ns| - 1)
    }

    // head, tail and the links spell the sequence `ns`.
    ghost predicate Spells(ns: seq<Context>)
      reads this, ns
    {
      SpellsUp(ns) && SpellsDown(ns) && Distinct(ns)
    }

    // The index has exactly the listed names, each with its own node, and the stale ones.
    ghost predicate Indexed()
      reads this
    {
      IndexesExactly(listed, nodes) && Splits(channelMap, listed, stale)
    }

    // Emptied while stale names remain.
    ghost predicate Emptied()
      reads this
    {
      nodes == [] && stale != map[]
    }

    // Then only the end was cleared at which the last context was removed. The other keeps the removed
    // context, until it is removed there once more.
    ghost predicate Drained()
      reads this, lost
    {
      if lost == [] then head == null && tail == null
      else
        && |lost| == 1 && lost[0].next == null && lost[0].prev == null && lost[0].name !in channelMap
        && ((head == null && tail == lost[0]) || (head == lost[0] && tail == null))
    }

    ghost predicate Valid()
      reads this, nodes, lost
    {
      Indexed() && if Emptied() then Drained() else Spells(nodes) && lost == []
    }

    ghost function Contents(): seq<Entry>
      reads this
    {
      Entries(nodes)
    }

    // Every context that an operation may touch.
    ghost function Cells(): set<Context>
      reads this
    {
      (set c | c in nodes) + (set c | c in lost)
    }

    ghost function TheShape(): Shape
      reads this
    {
      Shape(Contents(), stale)
    }

    constructor ()
      ensures Valid() && TheShape() == Shape([], map[]) && nodes == [] && lost == []
    {
      head, tail, channelMap := null, null, map[];
      nodes, listed, stale, lost := [], map[], map[], [];
    }

    method AddOnly(name: string, handler: Handler) returns (ctx: Context)
      modifies this`head, this`tail
      ensures fresh(ctx) && ctx.name == name && ctx.handler == handler
      ensures Spells([ctx])
    {
      ctx := new Context(name, handler, null, null);
      head, tail := ctx, ctx;
    }

    // `ups` is what walks up meet: the list, or a removed context that head was left with.
    method LinkFirst(name: string, handler: Handler, ghost ups: seq<Context>) returns (ctx: Context)
      requires SpellsUp(ups) && Distinct(ups) && ups != []
      modifies this`head, ups
      ensures fresh(ctx) && ctx.name == name && ctx.handler == handler
      ensures SpellsUp([ctx] + ups)
      ensures old(SpellsDown(ups)) ==> Spells([ctx] + ups)
    {
      var oldHead := head;
      ctx := new Context(name, handler, oldHead, null);
      oldHead.prev := ctx;
      head := ctx;
    }

    method LinkLast(name: string, handler: Handler, ghost downs: seq<Context>) returns (ctx: Context)
      requires SpellsDown(downs) && Distinct(downs) && downs != []
      modifies this`tail, downs
      ensures fresh(ctx) && ctx.name == name && ctx.handler == handler
      ensures SpellsDown(downs + [ctx])
      ensures old(SpellsUp(downs)) ==> Spells(downs + [ctx])
    {
      var oldTail := tail;
      ctx := new Context(name, handler, null, oldTail);
      oldTail.next := ctx;
      tail := ctx;
    }

    // The index update that ends an addition.
    method Index(ctx: Context, ghost ns: seq<Context>)
      requires Indexed() && ctx.name !in channelMap
      requires ns == [ctx] + nodes || ns == nodes + [ctx]
      modifies this`channelMap, this`nodes, this`listed
      ensures if old(Emptied()) then nodes == old(nodes) else Indexed() && nodes == ns
    {
      SplitsAfterPush(channelMap, listed, stale, ctx);
      IndexAfterPush(listed, nodes, ctx, ns);
      channelMap := channelMap[ctx.name := ctx];
      if !Emptied() {
        nodes, listed := ns, listed[ctx.name := ctx];
      }
    }

    // The name of a removed context leaves the index; that of one removed once more has left it.
    method Forget(node: Context, ghost k: nat, ghost rest: seq<Context>)
      requires Indexed() && Distinct(nodes) && Leaves(node, k, rest)
      modifies this`channelMap, this`nodes, this`listed
      ensures Indexed() && nodes == rest && node.name !in channelMap
      ensures |channelMap| == 0 <==> rest == [] && stale == map[]
    {
      if nodes != [] {
        IndexAfterPop(listed, nodes, k, rest);
        SplitsAfterPop(channelMap, listed, stale, node.name);
        listed := listed - {node.name};
      } else {
        assert channelMap - {node.name} == channelMap;
      }
      channelMap := channelMap - {node.name};
      nodes := rest;
      CountIndex(channelMap, listed, stale, nodes);
    }

    // Node k leaves at an end of the list, or a removed context leaves the end that kept it.
    ghost predicate Leaves(node: Context, k: nat, rest: seq<Context>)
      reads this
    {
      if nodes == [] then rest == [] && node.name !in channelMap
      else
        && k < |nodes| && nodes[k] == node
        && ((k == 0 && rest == nodes[1..]) || (k == |nodes| - 1 && rest == nodes[..k]))
    }

    // The index update that ends a removal; head and tail are cleared with the last name.
    method DropName(node: Context, ghost k: nat, ghost rest: seq<Context>)
      requires Indexed() && Distinct(nodes) && Leaves(node, k, rest)
      modifies this`channelMap, this`nodes, this`listed, this`head, this`tail
      ensures Indexed() && nodes == rest && node.name !in channelMap
      ensures if rest == [] && stale == map[] then head == null && tail == null
              else head == old(head) && tail == old(tail)
    {
      Forget(node, k, rest);
      if |channelMap| == 0 {
        head, tail := null, null;
      }
    }

    // The end of a removal. A context that has emptied the list while stale names remain is kept.
    method Drop(node: Context, ghost k: nat, ghost rest: seq<Context>)
      requires Indexed() && Distinct(nodes) && Leaves(node, k, rest)
      requires if nodes == [] then stale != map[] && head == null && tail == null
               else if rest != [] then Spells(rest)
               else node.next == null && node.prev == null
                    && ((head == null && tail == node) || (head == node && tail == null))
      modifies this
      ensures Valid() && nodes == rest && stale == old(stale)
      ensures Emptied() ==> lost == (if old(nodes) == [] then [] else [node])
      ensures Emptied() ==> head == old(head) && tail == old(tail)
    {
      ghost var again := nodes == [];
      DropName(node, k, rest);
      lost := if Emptied() && !again then [node] else [];
    }

    // LinkFirst on the list, or on the removed context that head was left with.
    method LinkBefore(name: string, handler: Handler) returns (c: Context)
      requires Valid() && head != null
      modifies this`head, nodes, lost
      ensures fresh(c) && c.name == name && c.handler == handler
      ensures if Emptied() then SpellsUp([c] + lost) && SpellsDown([]) else Spells([c] + nodes)
    {
      c := LinkFirst(name, handler, if Emptied() then lost else nodes);
    }

    method LinkAfter(name: string, handler: Handler) returns (c: Context)
      requires Valid() && tail != null
      modifies this`tail, nodes, lost
      ensures fresh(c) && c.name == name && c.handler == handler
      ensures if Emptied() then SpellsDown(lost + [c]) && SpellsUp([]) else Spells(nodes + [c])
    {
      c := LinkLast(name, handler, if Emptied() then lost else nodes);
    }

    method PushOnly(name: string, handler: Handler) returns (c: Context)
      requires Valid() && nodes == [] && stale == map[] && name !in channelMap
      modifies this
      ensures Valid() && stale == old(stale) && lost == [] && nodes == [c]
      ensures fresh(c) && c.name == name && c.handler == handler
    {
      c := AddOnly(name, handler);
      Index(c, [c]);
    }

    method PushFirst(name: string, handler: Handler) returns (c: Context)
      requires Valid() && head != null && name !in channelMap
      modifies this, nodes, lost
      ensures fresh(c) && c.name == name && c.handler == handler && stale == old(stale) && lost == old(lost)
      ensures if old(Emptied()) then SpellsUp([c] + lost) && SpellsDown([]) && nodes == []
              else Valid() && nodes == [c] + old(nodes)
    {
      c := LinkBefore(name, handler);
      Index(c, [c] + nodes);
    }

    method PushLast(name: string, handler: Handler) returns (c: Context)
      requires Valid() && tail != null && name !in channelMap
      modifies this, nodes, lost
      ensures fresh(c) && c.name == name && c.handler == handler && stale == old(stale) && lost == old(lost)
      ensures if old(Emptied()) then SpellsDown(lost + [c]) && SpellsUp([]) && nodes == []
              else Valid() && nodes == old(nodes) + [c]
    {
      c := LinkAfter(name, handler);
      Index(c, nodes + [c]);
    }

    /**
     Refused iff the index has the name, be it listed or stale. Otherwise the entry is pushed in
     front; but on a list that RemoveLast has emptied while stale names remain, walks up meet the
     removed handler again behind the new one, and walks down meet nothing. If it was RemoveFirst
     that emptied it, head is nil and the source dereferences it.
     */
    method AddFirst(name: string, handler: Handler) returns (ok: bool, ghost ctx: Context?)
      requires Valid()
      requires Emptied() && name !in stale ==> head != null
      modifies this, nodes, lost
      ensures ok <==> !Listed(name, old(Contents())) && name !in old(stale)
      ensures stale == old(stale)
      ensures !ok || !old(Emptied()) ==> Valid() && lost == old(lost)
      ensures !ok || !old(Emptied()) ==>
                Contents() == if ok then [Entry(name, handler)] + old(Contents()) else old(Contents())
      ensures ok && old(Emptied()) ==>
                ctx != null && ctx.name == name && ctx.handler == handler
                && SpellsUp([ctx] + old(lost)) && SpellsDown([])
      ensures forall j :: 0 <= j < |nodes| ==> nodes[j] in old(nodes) || fresh(nodes[j])
    {
      TakenNames(channelMap, listed, stale, nodes, name);
      ctx := null;
      ok := |channelMap| == 0 || name !in channelMap;
      if !ok {
        return;
      }
      ghost var before := nodes;
      var c;
      if |channelMap| == 0 {
        c := PushOnly(name, handler);
        assert [c] + before == [c];
      } else {
        c := PushFirst(name, handler);
      }
      ctx := c;
      EntriesAfterPush(before, c);
    }

    /** The same at the end, with the directions exchanged. */
    method AddLast(name: string, handler: Handler) returns (ok: bool, ghost ctx: Context?)
      requires Valid()
      requires Emptied() && name !in stale ==> tail != null
      modifies this, nodes, lost
      ensures ok <==> !Listed(name, old(Contents())) && name !in old(stale)
      ensures stale == old(stale)
      ensures !ok || !old(Emptied()) ==> Valid() && lost == old(lost)
      ensures !ok || !old(Emptied()) ==>
                Contents() == if ok then old(Contents()) + [Entry(name, handler)] else old(Contents())
      ensures ok && old(Emptied()) ==>
                ctx != null && ctx.name == name && ctx.handler == handler
                && SpellsDown(old(lost) + [ctx]) && SpellsUp([])
      ensures forall j :: 0 <= j < |nodes| ==> nodes[j] in old(nodes) || fresh(nodes[j])
    {
      TakenNames(channelMap, listed, stale, nodes, name);
      ctx := null;
      ok := |channelMap| == 0 || name !in channelMap;
      if !ok {
        return;
      }
      ghost var before := nodes;
      var c;
      if |channelMap| == 0 {
        c := PushOnly(name, handler);
        assert before + [c] == [c];
      } else {
        c := PushLast(name, handler);
      }
      ctx := c;
      EntriesAfterPush(before, c);
    }

    /** A name finds its listed handler, and a stale name the handler that was replaced. */
    method Get(name: string) returns (r: Option<Handler>)
      requires Valid()
      ensures r.Some? <==> Listed(name, Contents()) || name in stale
      ensures name in stale ==> r.value == stale[name]
      ensures r.Some? && name !in stale ==> Entry(name, r.value) in Contents()
    {
      IndexIsExact(listed, nodes, name);
      if name in channelMap {
        r := Some(channelMap[name].handler);
        if name !in stale {
          ghost var i :| 0 <= i < |nodes| && nodes[i].name == name;
          assert Contents()[i] == Entry(name, r.value);
        }
      } else {
        r := None;
      }
    }

    method UnlinkFirst(ghost ups: seq<Context>) returns (oldHead: Context)
      requires SpellsUp(ups) && Linked(ups) && ups != []
      modifies this`head, ups
      ensures oldHead == ups[0]
      ensures if ups[1..] != [] then SpellsUp(ups[1..]) && Linked(ups[1..])
              else head == null && oldHead.next == null && oldHead.prev == null
    {
      oldHead := head;
      var following := head.next;
      head := following;
      if following != null {
        following.prev := null;
      }
      oldHead.next := null;
    }

    method UnlinkLast(ghost downs: seq<Context>) returns (oldTail: Context)
      requires SpellsDown(downs) && Linked(downs) && downs != []
      modifies this`tail, downs
      ensures oldTail == downs[|downs| - 1]
      ensures if downs[..|downs| - 1] != [] then SpellsDown(downs[..|downs| - 1]) && Linked(downs[..|downs| - 1])
              else tail == null && oldTail.next == null && oldTail.prev == null
    {
      oldTail := tail;
      var before := tail.prev;
      if before != null {
        before.next := null;
      }
      tail := before;
      oldTail.prev := null;
    }

    /**
     Without a head the source dereferences nil. On a list that RemoveLast has emptied while stale
     names remain, the handler that was removed then is returned once more.
     */
    method RemoveFirst() returns (handler: Handler)
      requires Valid() && head != null
      modifies this, nodes, lost
      ensures Valid() && stale == old(stale)
      ensures !old(Emptied()) ==> nodes == old(nodes)[1..] && old(nodes) != []
      ensures !old(Emptied()) ==>
                Contents() == old(Contents())[1..] && handler == old(Contents())[0].handler
      ensures !old(Emptied()) && Emptied() ==> lost == [old(nodes)[0]] && head == null
      ensures old(Emptied()) ==> Emptied() && old(lost) != [] && handler == old(lost)[0].handler && lost == []
    {
      ghost var before := nodes;
      var oldHead := UnlinkFirst(if Emptied() then lost else nodes);
      if before != [] {
        EntriesAfterPop(before);
      }
      Drop(oldHead, 0, if before == [] then [] else before[1..]);
      handler := oldHead.handler;
    }

    /** The same at the end, with the directions exchanged. */
    method RemoveLast() returns (handler: Handler)
      requires Valid() && tail != null
      modifies this, nodes, lost
      ensures Valid() && stale == old(stale)
      ensures !old(Emptied()) ==> nodes == old(nodes)[..|old(nodes)| - 1] && old(nodes) != []
      ensures !old(Emptied()) ==>
                && Contents() == old(Contents())[..|old(nodes)| - 1]
                && handler == old(Contents())[|old(nodes)| - 1].handler
      ensures !old(Emptied()) && Emptied() ==> lost == [old(nodes)[0]] && tail == null
      ensures old(Emptied()) ==> Emptied() && old(lost) != [] && handler == old(lost)[0].handler && lost == []
    {
      ghost var before := nodes;
      var oldTail := UnlinkLast(if Emptied() then lost else nodes);
      if before != [] {
        EntriesAfterPop(before);
      }
      Drop(oldTail, if before == [] then 0 else |before| - 1,
           if before == [] then [] else before[..|before| - 1]);
      handler := oldTail.handler;
    }

    // The neighbours of node k are made to point at a new context, which points back at them.
    method Splice(node: Context, newName: string, handler: Handler, ghost k: nat) returns (ctx: Context)
      requires Spells(nodes) && k < |nodes| && nodes[k] == node
      modifies nodes
      ensures fresh(ctx) && ctx.name == newName && ctx.handler == handler
      ensures Linked(nodes[k := ctx])
      ensures k == 0 ==> NextLinked(nodes)
      ensures k == |nodes| - 1 ==> PrevLinked(nodes)
    {
      var before := node.prev;
      var after := node.next;
      ctx := new Context(newName, handler, after, before);
      if before != null {
        before.next := ctx;
      }
      if after != null {
        after.prev := ctx;
      }
      ghost var ns := nodes[k := ctx];
      forall i | 0 <= i < |ns|
        ensures ns[i].next == At(ns, i + 1) && ns[i].prev == At(ns, i - 1)
      {
        assert i == k || ns[i] == nodes[i];
      }
    }

    // The index update that ends a replacement. The old name stays in it.
    method Supersede(node: Context, ctx: Context, ghost k: nat)
      requires Indexed() && Distinct(nodes) && k < |nodes| && nodes[k] == node && ctx.name !in channelMap
      modifies this`channelMap, this`nodes, this`listed, this`stale
      ensures channelMap == old(channelMap)[ctx.name := ctx]
      ensures if 0 < k < |old(nodes)| - 1
              then Indexed() && nodes == old(nodes)[k := ctx] && stale == old(stale)[node.name := node.handler]
              else nodes == old(nodes) && stale == old(stale)
    {
      SplitsAfterReplace(channelMap, listed, stale, node, ctx);
      IndexAfterReplace(listed, nodes, k, ctx);
      channelMap := channelMap[ctx.name := ctx];
      if 0 < k < |nodes| - 1 {
        listed, stale := listed[ctx.name := ctx] - {node.name}, stale[node.name := node.handler];
        nodes := nodes[k := ctx];
      }
    }

    // The found node is replaced. Head and tail are not moved, so the list spells the updated
    // sequence exactly when the node is interior.
    method ReplaceNode(node: Context, newName: string, handler: Handler, ghost k: nat) returns (ctx: Context)
      requires Valid() && k < |nodes| && nodes[k] == node && newName !in channelMap
      modifies this`channelMap, this`nodes, this`listed, this`stale, nodes
      ensures fresh(ctx) && ctx.name == newName && ctx.handler == handler
      ensures channelMap == old(channelMap)[newName := ctx]
      ensures Spells(old(nodes)[k := ctx]) <==> 0 < k < |old(nodes)| - 1
      ensures SpellsUp(if k > 0 then old(nodes)[k := ctx] else old(nodes))
      ensures SpellsDown(if k < |old(nodes)| - 1 then old(nodes)[k := ctx] else old(nodes))
      ensures 0 < k < |old(nodes)| - 1 ==>
                && Valid() && nodes == old(nodes)[k := ctx] && stale == old(stale)[node.name := node.handler]
                && Contents() == old(Contents())[k := Entry(newName, handler)]
    {
      ctx := Splice(node, newName, handler, k);
      assert At(nodes[k := ctx], k) == ctx;
      Supersede(node, ctx, k);
    }

    /**
     Replace walks the list for `oldName`. It never removes `oldName` from the index and never
     moves head or tail, so the new handler takes the old one's place in both directions exactly
     when the old one is neither the first nor the last. In place of the first it is met by walks
     down only, in place of the last by walks up only, and in place of the only one by none.
     */
    method Replace(oldName: string, newName: string, handler: Handler)
      returns (r: Option<Handler>, ok: bool, ghost k: nat, ghost ctx: Context?)
      requires Valid()
      modifies this`channelMap, this`nodes, this`listed, this`stale, nodes
      ensures ok <==> !Taken(newName, old(TheShape())) && Taken(oldName, old(TheShape()))
      ensures ctx != null <==> ok && Listed(oldName, old(Contents()))
      ensures ctx == null ==> r == None && Valid() && nodes == old(nodes) && TheShape() == old(TheShape())
      ensures ctx == null ==> channelMap == old(channelMap)
      ensures ctx != null ==>
                && k < |old(nodes)| && old(nodes)[k].name == oldName && r == Some(old(nodes)[k].handler)
                && (forall i :: 0 <= i < k ==> old(nodes)[i].name != oldName)
                && fresh(ctx) && ctx.name == newName && ctx.handler == handler
                && channelMap == old(channelMap)[newName := ctx]
      ensures ctx != null && 0 < k < |old(nodes)| - 1 ==>
                && Valid() && nodes == old(nodes)[k := ctx]
                && TheShape() == Shape(old(Contents())[k := Entry(newName, handler)],
                                       old(stale)[oldName := r.value])
      ensures ctx != null && !(0 < k < |old(nodes)| - 1) ==>
                && !Spells(old(nodes)[k := ctx])
                && SpellsUp(if k > 0 then old(nodes)[k := ctx] else old(nodes))
                && SpellsDown(if k < |old(nodes)| - 1 then old(nodes)[k := ctx] else old(nodes))
    {
      ctx, k := null, 0;
      TakenNames(channelMap, listed, stale, nodes, newName);
      TakenNames(channelMap, listed, stale, nodes, oldName);
      if newName in channelMap {
        return None, false, k, ctx;
      }
      if oldName !in channelMap {
        return None, false, k, ctx;
      }
      if |channelMap| == 0 {
        return None, true, k, ctx;
      }
      var node := head;
      ghost var ups := if head == null then [] else if Emptied() then lost else nodes;
      while node != null
        invariant k <= |ups| && node == At(ups, k)
        invariant forall i :: 0 <= i < k ==> ups[i].name != oldName
        decreases |ups| - k
      {
        if node.name == oldName {
          assert ups == nodes;
          assert Contents()[k].name == oldName;
          ctx := ReplaceNode(node, newName, handler, k);
          return Some(node.handler), true, k, ctx;
        }
        node, k := node.next, k + 1;
      }
      return None, true, k, ctx;
    }

    /**
     Pipeline.SendUpStream: the Deal calls are those of the reference walk over the list that is met
     going up, which is `nodes` unless an end has been replaced.
     */
    method SendUpStream(data: Data, ghost ns: seq<Context>) returns (trace: seq<string>)
      requires SpellsUp(ns)
      ensures trace == DealsAlong(Up, Entries(ns), data)
    {
      var context, k := FirstUpFrom(head, ns, 0);
      assert Entries(ns)[0..] == Entries(ns);
      SkipTo(ns, 0, k, data);
      if context == null {
        return [];
      }
      trace := context.handler.OnChannelUpStream(context, data, ns, k);
    }

    /** Pipeline.SendDownStream: the same over the reversed list that is met going down. */
    method SendDownStream(data: Data, ghost ns: seq<Context>) returns (trace: seq<string>)
      requires SpellsDown(ns)
      ensures trace == DealsAlong(Down, Reverse(Entries(ns)), data)
    {
      var context, k := FirstDownFrom(tail, ns, |ns|);
      assert Entries(ns)[..|ns|] == Entries(ns);
      DealsSkipBack(Entries(ns), |ns|, k, data);
      if context == null {
        return [];
      }
      trace := context.handler.OnChannelDownStream(context, data, ns, k - 1);
    }
  }

  // ---------------------------------------------------------------- whole runs

  // What a pipeline holds: the list, and the names that only the index still knows.
  datatype Shape = Shape(entries: seq<Entry>, stale: map<string, Handler>)

  datatype Op =
    | First(name: string, handler: Handler)
    | Last(name: string, handler: Handler)
    | PopFirst
    | PopLast
    | Swap(oldName: string, newName: string, handler: Handler)

  ghost function FirstNamed(es: seq<Entry>, name: string): (k: nat)
    requires Listed(name, es)
    ensures k < |es| && es[k].name == name && forall i :: 0 <= i < k ==> es[i].name != name
  {
    if es[0].name == name then 0
    else
      assert forall i :: 0 < i < |es| ==> es[i] == es[1..][i - 1];
      FirstNamed(es[1..], name) + 1
  }

  ghost predicate Taken(name: string, s: Shape) {
    Listed(name, s.entries) || name in s.stale
  }

  ghost function ApplyOp(s: Shape, op: Op): Shape
    requires (op.PopFirst? || op.PopLast?) ==> s.entries != []
  {
    var es := s.entries;
    match op
    case First(n, h) => if Taken(n, s) then s else s.(entries := [Entry(n, h)] + es)
    case Last(n, h) => if Taken(n, s) then s else s.(entries := es + [Entry(n, h)])
    case PopFirst => s.(entries := es[1..])
    case PopLast => s.(entries := es[..|es| - 1])
    case Swap(o, n, h) =>
      if Taken(n, s) || !Listed(o, es) then s
      else
        var k := FirstNamed(es, o);
        Shape(es[k := Entry(n, h)], s.stale[o := es[k].handler])
  }

  // Removals happen on non-empty lists, replacements in the interior, and nothing new is added to an
  // emptied list with stale names.
  ghost predicate Permitted(s: Shape, op: Op) {
    match op
    case First(n, _) => Taken(n, s) || s.entries != [] || s.stale == map[]
    case Last(n, _) => Taken(n, s) || s.entries != [] || s.stale == map[]
    case PopFirst => s.entries != []
    case PopLast => s.entries != []
    case Swap(o, n, _) => Taken(n, s) || !Listed(o, s.entries) || 0 < FirstNamed(s.entries, o) < |s.entries| - 1
  }

  ghost predicate Becomes(s: Shape, op: Op, s': Shape) {
    Permitted(s, op) && s' == ApplyOp(s, op)
  }

  ghost predicate IsHistory(history: seq<Shape>, ops: seq<Op>) {
    && |history| == |ops| + 1
    && forall i {:trigger ops[i]} :: 0 <= i < |ops| ==> Becomes(history[i], ops[i], history[i + 1])
  }

  lemma SwapMeaning(s: Shape, oldName: string, newName: string, handler: Handler, k: nat, after: Shape)
    requires Becomes(s, Swap(oldName, newName, handler), after)
    requires !Taken(newName, s) && k < |s.entries| && s.entries[k].name == oldName
    requires forall i :: 0 <= i < k ==> s.entries[i].name != oldName
    ensures 0 < k < |s.entries| - 1
    ensures after == Shape(s.entries[k := Entry(newName, handler)], s.stale[oldName := s.entries[k].handler])
  {
    assert FirstNamed(s.entries, oldName) == k;
  }

  lemma NoSwap(s: Shape, oldName: string, newName: string, handler: Handler, after: Shape)
    requires Becomes(s, Swap(oldName, newName, handler), after)
    requires Taken(newName, s) || !Listed(oldName, s.entries)
    ensures after == s
  {}

  method Swaps(p: ChannelHandlerPipeline, oldName: string, newName: string, handler: Handler, ghost after: Shape)
    requires p.Valid() && Becomes(p.TheShape(), Swap(oldName, newName, handler), after)
    modifies p, p.Cells()
    ensures p.Valid() && p.TheShape() == after && fresh(p.Cells() - old(p.Cells()))
  {
    ghost var s, before := p.TheShape(), p.nodes;
    var r, ok, k, ctx := p.Replace(oldName, newName, handler);
    if ctx != null {
      SwapMeaning(s, oldName, newName, handler, k, after);
      assert p.nodes == before[k := ctx];
    } else {
      NoSwap(s, oldName, newName, handler, after);
    }
  }

  method Perform(p: ChannelHandlerPipeline, op: Op, ghost after: Shape)
    requires p.Valid() && Becomes(p.TheShape(), op, after)
    modifies p, p.Cells()
    ensures p.Valid() && p.TheShape() == after && fresh(p.Cells() - old(p.Cells()))
  {
    match op {
      case First(n, h) =>
        var _, _ := p.AddFirst(n, h);
      case Last(n, h) =>
        var _, _ := p.AddLast(n, h);
      case PopFirst =>
        var _ := p.RemoveFirst();
      case PopLast =>
        var _ := p.RemoveLast();
      case Swap(o, n, h) => Swaps(p, o, n, h, after);
    }
  }

  /**
   Any run of additions, removals and interior replacements keeps the invariant, and acts on the list
   as on a sequence and on the index as on its names and the replaced ones.
   */
  method Replay(p: ChannelHandlerPipeline, ops: seq<Op>, ghost history: seq<Shape>)
    requires p.Valid() && IsHistory(history, ops) && history[0] == p.TheShape()
    modifies p, p.Cells()
    ensures p.Valid() && p.TheShape() == history[|ops|]
  {
    for i := 0 to |ops|
      invariant p.Valid() && p.TheShape() == history[i] && fresh(p.Cells() - old(p.Cells()))
    {
      Perform(p, ops[i], history[i + 1]);
    }
  }
}
