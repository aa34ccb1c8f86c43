/**
 The text layer under etcd: the key builders and addresses of `pkg/protocol/core/info.go`, the
 path constants of `pkg/common/const.go`, and the composed protocol ids that the deploy server
 and the containers build independently of each other.

 The other modules work on structured keys and records. The theorems here say when that is
 sound: rendering is injective over all key families at once, and what each prefix read or
 watch returns.
 */
module Keys {
  import opened Wrappers

  const ROOT_PATH := "/zingthings"
  const COMPLETE_PATH := ROOT_PATH + "/nodes" + "/normal"
  const COMPLETE_RECOVER := ROOT_PATH + "/nodes" + "/recover"
  const COMPLETE_DEPLOY := ROOT_PATH + "/deploys"
  const COMPLETE_PROTOCOL := ROOT_PATH + "/protocols"
  const COMPLETE_PROTOCOL_NODE := COMPLETE_PROTOCOL + "/nodes"
  const COMPLETE_PROTOCOL_INFO := COMPLETE_PROTOCOL + "/info"

  // Go's int on 64-bit platforms.
  const MAX_INT := 0x7FFF_FFFF_FFFF_FFFF
  type Int64 = i: int | -MAX_INT - 1 <= i <= MAX_INT

  // ---------------------------------------------------------------- decimal numbers

  function Digit(d: nat): char
    requires d < 10
  {
    '0' + d as char
  }

  function Decimal(n: nat): (s: string)
    ensures |s| > 0
    ensures forall c :: c in s ==> '0' <= c <= '9'
  {
    if n < 10 then [Digit(n)] else Decimal(n / 10) + [Digit(n % 10)]
  }

  // strconv.Itoa and the %d verb
  function Itoa(i: int): string {
    if i < 0 then "-" + Decimal(-i) else Decimal(i)
  }

  function DecimalValue(s: string): Option<nat> {
    if s == "" then None
    else
      var c := s[|s| - 1];
      if !('0' <= c <= '9') then None
      else
        var d := (c - '0') as int;
        if |s| == 1 then Some(d)
        else
          match DecimalValue(s[..|s| - 1])
          case None => None
          case Some(v) => Some(10 * v + d)
  }

  // strconv.Atoi: an optional sign, at least one digit, and an error outside int64.
  function Atoi(s: string): Option<int> {
    var signed := s != "" && (s[0] == '-' || s[0] == '+');
    match DecimalValue(if signed then s[1..] else s)
    case None => None
    case Some(v) =>
      var i: int := if signed && s[0] == '-' then -(v as int) else v;
      if -MAX_INT - 1 <= i <= MAX_INT then Some(i) else None
  }

  lemma {:induction false} DecimalRoundTrip(n: nat)
    ensures DecimalValue(Decimal(n)) == Some(n)
  {
    if n >= 10 {
      DecimalRoundTrip(n / 10);
      var s := Decimal(n);
      assert s[..|s| - 1] == Decimal(n / 10);
    }
  }

  lemma SignedValue(s: string, v: nat)
    requires s != "" && forall c :: c in s ==> '0' <= c <= '9'
    requires DecimalValue(s) == Some(v)
    ensures Atoi(s) == if v <= MAX_INT then Some(v as int) else None
    ensures Atoi("-" + s) == if v <= MAX_INT + 1 then Some(-(v as int)) else None
  {
    assert s[0] in s;
    assert ("-" + s)[1..] == s;
  }

  lemma ItoaCharacters(i: int)
    ensures ':' !in Itoa(i) && '/' !in Itoa(i)
  {}

  /** Parsing a printed number gives it back exactly if it fits into 64 bits. */
  lemma AtoiItoa(i: int)
    ensures Atoi(Itoa(i)) ==
            if -9223372036854775808 <= i <= 9223372036854775807 then Some(i) else None
  {
    var m: nat := if i < 0 then -i else i;
    DecimalRoundTrip(m);
    SignedValue(Decimal(m), m);
  }

  /** Numbers are printed in decimal, most significant digit first, with a minus sign if negative. */
  lemma ItoaMeaning(n: nat, d: nat)
    requires d < 10
    ensures Itoa(d) == ["0123456789"[d]]
    ensures n > 0 ==> Itoa(10 * n + d) == Itoa(n) + ["0123456789"[d]]
    ensures n > 0 ==> Itoa(-(n as int)) == "-" + Itoa(n)
  {
    DigitText(d);
    assert n > 0 ==> (10 * n + d) / 10 == n && (10 * n + d) % 10 == d;
  }

  lemma DigitText(d: nat)
    requires d < 10
    ensures Digit(d) == "0123456789"[d]
  {}

  // A character that is no digit, other than a sign in front, makes a text no number.
  lemma {:induction false} NoValue(s: string, i: nat)
    requires i < |s| && !('0' <= s[i] <= '9')
    ensures DecimalValue(s) == None
  {
    if i < |s| - 1 {
      NoValue(s[..|s| - 1], i);
    }
  }

  /** What is refused: texts without a digit or with another character, and numbers beyond 64 bits. */
  lemma AtoiRefuses(s: string, i: nat)
    ensures Atoi("") == None && Atoi("-") == None && Atoi("+") == None
    ensures i < |s| && !('0' <= s[i] <= '9') && (i > 0 || (s[0] != '-' && s[0] != '+')) ==> Atoi(s) == None
    ensures Atoi(s).Some? ==> -9223372036854775808 <= Atoi(s).value <= 9223372036854775807
  {
    if i < |s| && !('0' <= s[i] <= '9') {
      NoValue(s, i);
      if i > 0 {
        NoValue(s[1..], i - 1);
      }
    }
  }

  // ---------------------------------------------------------------- slash-separated paths

  function Path(parts: seq<string>): string {
    if parts == [] then "" else "/" + parts[0] + Path(parts[1..])
  }

  predicate SlashFree(parts: seq<string>) {
    forall i :: 0 <= i < |parts| ==> '/' !in parts[i]
  }

  lemma FirstPartAt(x: string, r: string, i: nat)
    requires 1 <= i < 1 + |x| + |r|
    ensures ("/" + x + r)[i] == if i <= |x| then x[i - 1] else r[i - 1 - |x|]
  {}

  lemma FirstPartLength(x: string, r: string, y: string, t: string)
    requires '/' !in x && '/' !in y
    requires t == "" || t[0] == '/'
    requires r == "" || r[0] == '/'
    requires "/" + x + r <= "/" + y + t
    ensures |x| <= |y| && (r != "" ==> |x| == |y|)
  {
    if |y| < |x| {
      FirstPartAt(x, r, 1 + |y|);
    } else if r != "" && |x| < |y| {
      FirstPartAt(x, r, 1 + |x|);
      FirstPartAt(y, t, 1 + |x|);
    }
  }

  // The first component of a path ends where the next slash is, so it can be read off.
  lemma FirstPartIsPrefix(x: string, r: string, y: string, t: string)
    requires '/' !in x && '/' !in y
    requires t == "" || t[0] == '/'
    requires "/" + x + r <= "/" + y + t
    requires r != "" ==> r[0] == '/'
    ensures x <= y
    ensures r != "" ==> x == y && r <= t
  {
    FirstPartLength(x, r, y, t);
    var a, b := "/" + x + r, "/" + y + t;
    assert a == b[..|a|];
    assert x == a[1..1 + |x|] == b[1..1 + |x|] == y[..|x|];
    if r != "" {
      assert r == a[1 + |x|..] == b[1 + |x|..|a|];
      assert t == b[1 + |x|..];
      assert r == t[..|r|];
    }
  }

  lemma PathStart(parts: seq<string>)
    ensures Path(parts) != "" ==> Path(parts)[0] == '/'
    ensures Path(parts) == "" <==> parts == []
  {}

  lemma {:induction false} PathInjective(xs: seq<string>, ys: seq<string>)
    requires SlashFree(xs) && SlashFree(ys)
    requires Path(xs) == Path(ys)
    ensures xs == ys
  {
    PathStart(xs);
    PathStart(ys);
    if xs != [] {
      PathStart(xs[1..]);
      PathStart(ys[1..]);
      FirstPartIsPrefix(xs[0], Path(xs[1..]), ys[0], Path(ys[1..]));
      FirstPartIsPrefix(ys[0], Path(ys[1..]), xs[0], Path(xs[1..]));
      assert xs[0] == ys[0];
      assert Path(xs) == ("/" + xs[0]) + Path(xs[1..]);
      assert Path(ys) == ("/" + ys[0]) + Path(ys[1..]);
      assert Path(xs[1..]) == Path(xs)[1 + |xs[0]|..];
      PathInjective(xs[1..], ys[1..]);
      assert xs == [xs[0]] + xs[1..] && ys == [ys[0]] + ys[1..];
    }
  }

  // A prefix read whose prefix stops inside the last component matches that component's extensions.
  lemma {:induction false} PathPrefix(pre: seq<string>, a: string, ys: seq<string>)
    requires SlashFree(pre) && SlashFree(ys) && '/' !in a
    ensures Path(pre + [a]) <= Path(ys) <==> |pre| < |ys| && ys[..|pre|] == pre && a <= ys[|pre|]
  {
    PathStart(ys);
    var p := pre + [a];
    PathStart(p[1..]);
    if ys != [] {
      PathStart(ys[1..]);
      assert Path(p) == "/" + p[0] + Path(p[1..]);
      if Path(p) <= Path(ys) {
        FirstPartIsPrefix(p[0], Path(p[1..]), ys[0], Path(ys[1..]));
      }
      if pre != [] {
        assert p[1..] == pre[1..] + [a];
        PathPrefix(pre[1..], a, ys[1..]);
        if pre[0] == ys[0] {
          assert |pre| <= |ys| ==> ys[..|pre|] == [ys[0]] + ys[1..][..|pre| - 1];
          assert pre == [pre[0]] + pre[1..];
          if Path(p[1..]) <= Path(ys[1..]) {
            assert Path(ys) == ("/" + ys[0]) + Path(ys[1..]);
          }
        } else {
          assert |pre| < |ys| ==> ys[..|pre|][0] == ys[0];
        }
      }
    }
  }

  // ---------------------------------------------------------------- the key families

  datatype Key =
    | Liveness(ptype: string, addr: string, id: string)
    | NodeRecord(addr: string, ptype: string, id: string)
    | InfoRecord(id: string)
    | ContainerNode(addr: string)
    | RecoverNode(addr: string)
    | DeployNode(addr: string)

  function Render(k: Key): string {
    match k
    case Liveness(t, a, id) => COMPLETE_PROTOCOL + "/" + t + "/" + a + "/" + id
    case NodeRecord(a, t, id) => COMPLETE_PROTOCOL_NODE + "/" + a + "/" + t + "/" + id
    case InfoRecord(id) => COMPLETE_PROTOCOL_INFO + "/" + id
    case ContainerNode(a) => COMPLETE_PATH + "/" + a
    case RecoverNode(a) => COMPLETE_RECOVER + "/" + a
    case DeployNode(a) => COMPLETE_DEPLOY + "/" + a
  }

  // The components of a key: those of its family's root, then those of the record.
  function Root(k: Key): seq<string> {
    match k
    case Liveness(_, _, _) => ["zingthings", "protocols"]
    case NodeRecord(_, _, _) => ["zingthings", "protocols", "nodes"]
    case InfoRecord(_) => ["zingthings", "protocols", "info"]
    case ContainerNode(_) => ["zingthings", "nodes", "normal"]
    case RecoverNode(_) => ["zingthings", "nodes", "recover"]
    case DeployNode(_) => ["zingthings", "deploys"]
  }

  function Fields(k: Key): seq<string> {
    match k
    case Liveness(t, a, id) => [t, a, id]
    case NodeRecord(a, t, id) => [a, t, id]
    case InfoRecord(id) => [id]
    case ContainerNode(a) => [a]
    case RecoverNode(a) => [a]
    case DeployNode(a) => [a]
  }

  function Parts(k: Key): seq<string> {
    Root(k) + Fields(k)
  }

  // None of the caller-supplied components contains the separator.
  predicate Plain(k: Key) {
    match k
    case Liveness(t, a, id) => '/' !in t && '/' !in a && '/' !in id
    case NodeRecord(a, t, id) => '/' !in t && '/' !in a && '/' !in id
    case InfoRecord(id) => '/' !in id
    case ContainerNode(a) => '/' !in a
    case RecoverNode(a) => '/' !in a
    case DeployNode(a) => '/' !in a
  }

  lemma PathOf(a: string, b: string, c: string)
    ensures Path([a]) == "/" + a
    ensures Path([a, b]) == "/" + a + "/" + b
    ensures Path([a, b, c]) == "/" + a + "/" + b + "/" + c
  {
    assert [a][1..] == [] && [b][1..] == [] && [c][1..] == [];
    assert [a, b][1..] == [b] && [b, c][1..] == [c] && [a, b, c][1..] == [b, c];
    assert Path([a]) == "/" + a && Path([b]) == "/" + b && Path([c]) == "/" + c;
    assert Path([a, b]) == "/" + a + Path([b]);
    assert Path([b, c]) == "/" + b + Path([c]);
    assert Path([a, b, c]) == "/" + a + Path([b, c]);
  }

  lemma {:induction false} PathAppend(xs: seq<string>, ys: seq<string>)
    ensures Path(xs + ys) == Path(xs) + Path(ys)
  {
    if xs == [] {
      assert xs + ys == ys;
    } else {
      assert (xs + ys)[1..] == xs[1..] + ys;
      PathAppend(xs[1..], ys);
    }
  }

  lemma TwoParts(text: string, s: string, a: string, b: string)
    requires text == "/" + a && s == "/" + b
    ensures text + s == Path([a, b])
  {
    PathOf(a, b, "");
    assert "/" + a + ("/" + b) == "/" + a + "/" + b;
  }

  lemma ThreeParts(text: string, s: string, t: string, a: string, b: string, c: string)
    requires text == "/" + a && s == "/" + b && t == "/" + c
    ensures text + s + t == Path([a, b, c])
  {
    PathOf(a, b, c);
    assert "/" + a + ("/" + b) + ("/" + c) == "/" + a + "/" + b + "/" + c;
  }

  lemma ProtocolTexts()
    ensures COMPLETE_PROTOCOL == Path(["zingthings", "protocols"])
    ensures COMPLETE_PROTOCOL_NODE == Path(["zingthings", "protocols", "nodes"])
    ensures COMPLETE_PROTOCOL_INFO == Path(["zingthings", "protocols", "info"])
  {
    TwoParts(ROOT_PATH, "/protocols", "zingthings", "protocols");
    ThreeParts(ROOT_PATH, "/protocols", "/nodes", "zingthings", "protocols", "nodes");
    ThreeParts(ROOT_PATH, "/protocols", "/info", "zingthings", "protocols", "info");
  }

  lemma NodeTexts()
    ensures COMPLETE_DEPLOY == Path(["zingthings", "deploys"])
    ensures COMPLETE_PATH == Path(["zingthings", "nodes", "normal"])
    ensures COMPLETE_RECOVER == Path(["zingthings", "nodes", "recover"])
  {
    TwoParts(ROOT_PATH, "/deploys", "zingthings", "deploys");
    ThreeParts(ROOT_PATH, "/nodes", "/normal", "zingthings", "nodes", "normal");
    ThreeParts(ROOT_PATH, "/nodes", "/recover", "zingthings", "nodes", "recover");
  }

  lemma RootTexts()
    ensures COMPLETE_PROTOCOL == Path(["zingthings", "protocols"])
    ensures COMPLETE_DEPLOY == Path(["zingthings", "deploys"])
    ensures COMPLETE_PROTOCOL_NODE == Path(["zingthings", "protocols", "nodes"])
    ensures COMPLETE_PROTOCOL_INFO == Path(["zingthings", "protocols", "info"])
    ensures COMPLETE_PATH == Path(["zingthings", "nodes", "normal"])
    ensures COMPLETE_RECOVER == Path(["zingthings", "nodes", "recover"])
  {
    ProtocolTexts();
    NodeTexts();
  }

  // Appending components one Sprintf verb at a time, or all at once.
  lemma Appended(root: string, a: string, b: string, c: string)
    ensures root + "/" + a == root + Path([a])
    ensures root + "/" + a + "/" + b + "/" + c == root + Path([a, b, c])
  {
    PathOf(a, b, c);
    assert root + ("/" + a + "/" + b + "/" + c) == root + "/" + a + "/" + b + "/" + c;
  }

  lemma RenderIsPath(k: Key)
    ensures Render(k) == Path(Parts(k))
  {
    RootTexts();
    PathAppend(Root(k), Fields(k));
    match k {
      case Liveness(t, a, id) => Appended(COMPLETE_PROTOCOL, t, a, id);
      case NodeRecord(a, t, id) => Appended(COMPLETE_PROTOCOL_NODE, a, t, id);
      case InfoRecord(id) => Appended(COMPLETE_PROTOCOL_INFO, id, "", "");
      case ContainerNode(a) => Appended(COMPLETE_PATH, a, "", "");
      case RecoverNode(a) => Appended(COMPLETE_RECOVER, a, "", "");
      case DeployNode(a) => Appended(COMPLETE_DEPLOY, a, "", "");
    }
  }

  lemma PlainParts(k: Key)
    requires Plain(k)
    ensures SlashFree(Parts(k))
  {
    assert '/' !in "zingthings" && '/' !in "protocols" && '/' !in "nodes" && '/' !in "info";
    assert '/' !in "normal" && '/' !in "recover" && '/' !in "deploys";
  }

  // The literal components tell the families apart, even under a prefix read.
  lemma LiteralsDiffer()
    ensures !("protocols" <= "nodes") && !("protocols" <= "deploys") && !("deploys" <= "protocols")
    ensures !("deploys" <= "nodes") && "nodes" != "protocols" && "nodes" != "deploys"
    ensures !("normal" <= "recover") && !("recover" <= "normal")
    ensures !("info" <= "nodes") && !("nodes" <= "info")
  {
    assert "protocols"[0] == 'p' && "nodes"[0] == 'n' && "deploys"[0] == 'd';
    assert "normal"[0] == 'n' && "recover"[0] == 'r' && "info"[0] == 'i';
  }

  /** Every builder is injective and no two families ever share a key. */
  lemma KeysNeverCollide(k: Key, l: Key)
    requires Plain(k) && Plain(l)
    requires Render(k) == Render(l)
    ensures k == l
  {
    RenderIsPath(k);
    RenderIsPath(l);
    PlainParts(k);
    PlainParts(l);
    PathInjective(Parts(k), Parts(l));
    LiteralsDiffer();
    assert |Parts(k)| == |Parts(l)|;
    assert forall i :: 0 <= i < |Parts(k)| ==> Parts(k)[i] == Parts(l)[i];
    assert Parts(k)[1] == Parts(l)[1] && Parts(k)[2] == Parts(l)[2];
    SameFields(k, l);
  }

  lemma SameFields(k: Key, l: Key)
    requires Parts(k) == Parts(l)
    ensures k == l
  {
    LiteralsDiffer();
    var p, q := Parts(k), Parts(l);
    assert |p| == |q| && p[1] == q[1] && p[2] == q[2];
    assert k.Liveness? <==> l.Liveness?;
    if |p| > 3 {
      assert p[3] == q[3];
    }
    if |p| > 4 {
      assert p[4] == q[4];
    }
    if |p| > 5 {
      assert p[5] == q[5];
    }
  }

  // A prefix read that stops inside component |pre| of a key, seen on the components.
  ghost predicate Selects(pre: seq<string>, a: string, k: Key) {
    |pre| < |Parts(k)| && Parts(k)[..|pre|] == pre && a <= Parts(k)[|pre|]
  }

  lemma PrefixReadMatches(text: string, pre: seq<string>, a: string, k: Key)
    requires text == Path(pre + [a])
    requires SlashFree(pre) && '/' !in a && Plain(k)
    ensures text <= Render(k) <==> Selects(pre, a, k)
  {
    RenderIsPath(k);
    PlainParts(k);
    PathPrefix(pre, a, Parts(k));
  }

  lemma NodeRootParts()
    ensures SlashFree(Root(NodeRecord("", "", "")))
  {
    PlainParts(NodeRecord("", "", ""));
    assert forall i :: 0 <= i < 3 ==> Root(NodeRecord("", "", ""))[i] == Parts(NodeRecord("", "", ""))[i];
  }

  lemma SelectsNodes(a: string, k: Key)
    ensures Selects(Root(NodeRecord("", "", "")), a, k) <==>
            (k.NodeRecord? && a <= k.addr) || (k.Liveness? && k.ptype == "nodes" && a <= k.addr)
  {
    LiteralsDiffer();
    var p, pre := Parts(k), Root(NodeRecord("", "", ""));
    if |p| > 3 {
      assert p[..3] == pre <==> p[1] == "protocols" && p[2] == "nodes";
    }
  }

  lemma NodeScanText(a: string)
    ensures COMPLETE_PROTOCOL_NODE + "/" + a == Path(Root(NodeRecord("", "", "")) + [a])
  {
    RootTexts();
    PathOf(a, "", "");
    PathAppend(Root(NodeRecord("", "", "")), [a]);
  }

  /** What `Get(BuildProtocolKey(), WithPrefix())` returns for the node `a`. */
  lemma NodeScanMatches(a: string, k: Key)
    requires '/' !in a && Plain(k)
    ensures COMPLETE_PROTOCOL_NODE + "/" + a <= Render(k) <==>
            (k.NodeRecord? && a <= k.addr) || (k.Liveness? && k.ptype == "nodes" && a <= k.addr)
  {
    NodeScanText(a);
    NodeRootParts();
    PrefixReadMatches(COMPLETE_PROTOCOL_NODE + "/" + a, Root(NodeRecord("", "", "")), a, k);
    SelectsNodes(a, k);
  }

  /**
   A node scan returns exactly that node's records, with no liveness key among them, iff no
   stored address properly extends its own and no protocol type is called "nodes".
   */
  lemma NodeScanIsExact(a: string, keys: set<Key>)
    requires '/' !in a && forall k :: k in keys ==> Plain(k)
    ensures (forall k :: k in keys ==>
               (COMPLETE_PROTOCOL_NODE + "/" + a <= Render(k) <==> k.NodeRecord? && k.addr == a))
            <==>
            (forall k :: k in keys ==>
               !(k.NodeRecord? && a < k.addr) && !(k.Liveness? && k.ptype == "nodes" && a <= k.addr))
  {
    forall k | k in keys
      ensures (COMPLETE_PROTOCOL_NODE + "/" + a <= Render(k) <==> k.NodeRecord? && k.addr == a) <==>
              !(k.NodeRecord? && a < k.addr) && !(k.Liveness? && k.ptype == "nodes" && a <= k.addr)
    {
      NodeScanMatches(a, k);
    }
  }

  lemma WatchTexts()
    ensures COMPLETE_PROTOCOL == Path(["zingthings"] + ["protocols"])
    ensures COMPLETE_DEPLOY == Path(["zingthings"] + ["deploys"])
    ensures COMPLETE_PATH == Path(["zingthings", "nodes"] + ["normal"])
    ensures COMPLETE_RECOVER == Path(["zingthings", "nodes"] + ["recover"])
  {
    RootTexts();
    assert ["zingthings"] + ["protocols"] == ["zingthings", "protocols"];
    assert ["zingthings"] + ["deploys"] == ["zingthings", "deploys"];
    assert ["zingthings", "nodes"] + ["normal"] == ["zingthings", "nodes", "normal"];
    assert ["zingthings", "nodes"] + ["recover"] == ["zingthings", "nodes", "recover"];
  }

  lemma SelectsTopLevel(k: Key)
    ensures Selects(["zingthings"], "deploys", k) <==> k.DeployNode?
    ensures Selects(["zingthings"], "protocols", k) <==> k.Liveness? || k.NodeRecord? || k.InfoRecord?
  {
    LiteralsDiffer();
    assert Parts(k)[..1] == ["zingthings"];
    assert Parts(k)[1] == Root(k)[1];
  }

  lemma SelectsNodeKinds(k: Key)
    ensures Selects(["zingthings", "nodes"], "normal", k) <==> k.ContainerNode?
    ensures Selects(["zingthings", "nodes"], "recover", k) <==> k.RecoverNode?
  {
    LiteralsDiffer();
    var p := Parts(k);
    assert p[0] == "zingthings" && p[1] == Root(k)[1];
    assert p[..2] == ["zingthings", "nodes"] <==> p[1] == "nodes";
    assert |Root(k)| > 2 ==> p[2] == Root(k)[2];
  }

  /** The four watches of the coordinator see disjoint families, and each sees all of its own. */
  lemma WatchesSeparateFamilies(k: Key)
    requires Plain(k)
    ensures COMPLETE_PATH <= Render(k) <==> k.ContainerNode?
    ensures COMPLETE_RECOVER <= Render(k) <==> k.RecoverNode?
    ensures COMPLETE_DEPLOY <= Render(k) <==> k.DeployNode?
    ensures COMPLETE_PROTOCOL <= Render(k) <==> k.Liveness? || k.NodeRecord? || k.InfoRecord?
  {
    WatchTexts();
    assert '/' !in "deploys" && '/' !in "protocols" && '/' !in "normal" && '/' !in "recover";
    assert '/' !in "zingthings" && '/' !in "nodes";
    PrefixReadMatches(COMPLETE_DEPLOY, ["zingthings"], "deploys", k);
    PrefixReadMatches(COMPLETE_PROTOCOL, ["zingthings"], "protocols", k);
    PrefixReadMatches(COMPLETE_PATH, ["zingthings", "nodes"], "normal", k);
    PrefixReadMatches(COMPLETE_RECOVER, ["zingthings", "nodes"], "recover", k);
    SelectsTopLevel(k);
    SelectsNodeKinds(k);
  }

  // ---------------------------------------------------------------- addresses

  function BuildAddress(host: string, port: int): string {
    host + ":" + Itoa(port)
  }

  // strings.Split with a one-character separator
  function Split(s: string, c: char): (r: seq<string>)
    ensures |r| >= 1
    ensures c !in r[0]
  {
    if s == "" then [""]
    else
      var rest := Split(s[1..], c);
      if s[0] == c then [""] + rest else [[s[0]] + rest[0]] + rest[1..]
  }

  // The host and port that `register` reads back from a stored address. Where this is None the
  // Go code skips the record (a bad port) or panics (no separator).
  function ParseAddress(s: string): Option<(string, int)> {
    var parts := Split(s, ':');
    if |parts| < 2 then None
    else
      match Atoi(parts[1])
      case None => None
      case Some(p) => Some((parts[0], p))
  }

  lemma {:induction false} SplitAtFirst(h: string, c: char, t: string)
    requires c !in h
    ensures Split(h + [c] + t, c) == [h] + Split(t, c)
  {
    var s := h + [c] + t;
    if h == "" {
      assert s[1..] == t;
    } else {
      SplitAtFirst(h[1..], c, t);
      assert s[1..] == h[1..] + [c] + t;
      assert h == [h[0]] + h[1..];
    }
  }

  lemma {:induction false} SplitWithout(t: string, c: char)
    requires c !in t
    ensures Split(t, c) == [t]
  {
    if t != "" {
      SplitWithout(t[1..], c);
      assert t == [t[0]] + t[1..];
    }
  }

  /** An address survives the trip through etcd exactly when its host contains no colon. */
  lemma AddressRoundTrip(host: string, port: Int64)
    ensures ParseAddress(BuildAddress(host, port)) == Some((host, port)) <==> ':' !in host
  {
    AtoiItoa(port);
    ItoaCharacters(port);
    if ':' !in host {
      SplitAtFirst(host, ':', Itoa(port));
      SplitWithout(Itoa(port), ':');
      assert host + [':'] + Itoa(port) == BuildAddress(host, port);
    }
  }

  /** Of any stored text, the part before the first colon is the host and the one up to the next is the port. */
  lemma ParsesTheFirstParts(host: string, port: string, rest: string)
    requires ':' !in host && ':' !in port
    ensures ParseAddress(host) == None
    ensures var p := match Atoi(port) case Some(n) => Some((host, n)) case None => None;
            ParseAddress(host + ":" + port) == p && ParseAddress(host + ":" + port + ":" + rest) == p
  {
    SplitWithout(host, ':');
    SplitWithout(port, ':');
    SplitAtFirst(host, ':', port);
    assert host + [':'] + port == host + ":" + port;
    SplitAtFirst(port, ':', rest);
    SplitAtFirst(host, ':', port + [':'] + rest);
    assert host + [':'] + (port + [':'] + rest) == host + ":" + port + ":" + rest;
  }

  // ---------------------------------------------------------------- protocol ids

  // The id the deploy server looks for, and the one a container builds when the request's id is
  // not yet composed.
  function ComposeId(base: string, group: string, index: int): string {
    base + ":" + group + ":" + Itoa(index)
  }

  // Container.Deploy and dealUnDeployRequest: an id that already has a colon is taken as it is.
  function ContainerId(base: string, group: string, index: int): string {
    if ':' in base then base else ComposeId(base, group, index)
  }

  lemma FirstColon(x: string, r: string, y: string, t: string)
    requires ':' !in x && ':' !in y
    requires x + ":" + r == y + ":" + t
    ensures x == y && r == t
  {
    SplitAtFirst(x, ':', r);
    SplitAtFirst(y, ':', t);
    assert x + [':'] + r == y + [':'] + t;
    assert ([x] + Split(r, ':'))[0] == ([y] + Split(t, ':'))[0];
    assert r == (x + ":" + r)[|x| + 1..] && t == (y + ":" + t)[|y| + 1..];
  }

  lemma LastColon(r: string, x: string, t: string, y: string)
    requires ':' !in x && ':' !in y
    requires r + ":" + x == t + ":" + y
    ensures x == y && r == t
  {
    var s := r + ":" + x;
    assert forall k :: |r| < k < |s| ==> s[k] == x[k - |r| - 1];
    assert forall k :: |t| < k < |s| ==> s[k] == y[k - |t| - 1];
    assert s[|r|] == ':' && s[|t|] == ':';
    assert r == s[..|r|] && t == s[..|t|];
    assert x == s[|r| + 1..] && y == s[|t| + 1..];
  }

  lemma ItoaInjective(i: Int64, j: Int64)
    requires Itoa(i) == Itoa(j)
    ensures i == j
  {
    AtoiItoa(i);
    AtoiItoa(j);
    assert Some(i) == Some(j);
  }

  lemma TripleInjective(b: string, g: string, x: string, c: string, h: string, y: string)
    requires ':' !in b && ':' !in c && ':' !in x && ':' !in y
    requires b + ":" + g + ":" + x == c + ":" + h + ":" + y
    ensures b == c && g == h && x == y
  {
    assert b + ":" + g + ":" + x == b + ":" + (g + ":" + x);
    assert c + ":" + h + ":" + y == c + ":" + (h + ":" + y);
    FirstColon(b, g + ":" + x, c, h + ":" + y);
    LastColon(g, x, h, y);
  }

  /** Different (base, group, index) triples never share an id, whatever the group contains. */
  lemma ComposeInjective(b: string, g: string, i: Int64, c: string, h: string, j: Int64)
    requires ':' !in b && ':' !in c
    requires ComposeId(b, g, i) == ComposeId(c, h, j)
    ensures b == c && g == h && i == j
  {
    ItoaCharacters(i);
    ItoaCharacters(j);
    TripleInjective(b, g, Itoa(i), c, h, Itoa(j));
    ItoaInjective(i, j);
  }

  /**
   The id that the deploy server checks is the id the container registers exactly when the
   submitted base has no colon, and re-submitting a composed id leaves it unchanged.
   */
  lemma CheckedIdIsRegisteredId(base: string, g: string, i: int, g': string, j: int)
    ensures ContainerId(base, g, i) == ComposeId(base, g, i) <==> ':' !in base
    ensures ContainerId(ComposeId(base, g, i), g', j) == ComposeId(base, g, i)
  {
    assert ComposeId(base, g, i)[|base|] == ':';
    assert |ComposeId(base, g, i)| > |base|;
  }
}
