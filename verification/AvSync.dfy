/** The write loop of the tunnelled audio output: av-sync framed packets in, PES units out. */
module AvSync {
  import opened Common

  type Byte = b: int | 0 <= b < 256

  const MARKER: seq<Byte> := [0x55, 0x55, 0x00, 0x01]
  const HDR_LEN: nat := 16

  /** One av-sync packet: a presentation time and a payload. */
  datatype Packet = Packet(ts: nat, payload: seq<Byte>)

  /** What is written to the playpump: payload bytes, headed by a PES header that carries the
      timestamp and the length announced for the frame, or continuing an earlier unit. */
  datatype Unit = Unit(header: Option<(nat, nat)>, data: seq<Byte>)

  predicate Encodable(p: Packet) {
    p.ts < 0x1_0000_0000_0000_0000 && |p.payload| < 0x1_0000_0000
  }

  // ------------------------------------------------------------------ framing

  function Be32(n: nat): (s: seq<Byte>)
    requires n < 0x1_0000_0000
    ensures |s| == 4
  {
    [n / 0x100_0000, n / 0x1_0000 % 0x100, n / 0x100 % 0x100, n % 0x100]
  }

  function Load32(s: seq<Byte>, off: nat): nat
    requires off + 4 <= |s|
  {
    (s[off] as int) * 0x100_0000 + (s[off + 1] as int) * 0x1_0000 + (s[off + 2] as int) * 0x100 + s[off + 3] as int
  }

  function Header(p: Packet): (h: seq<Byte>)
    requires Encodable(p)
    ensures |h| == HDR_LEN
  {
    MARKER + Be32(|p.payload|) + Be32(p.ts / 0x1_0000_0000) + Be32(p.ts % 0x1_0000_0000)
  }

  predicate AllEncodable(ps: seq<Packet>) {
    forall p :: p in ps ==> Encodable(p)
  }

  function Framed(ps: seq<Packet>): seq<Byte>
    requires AllEncodable(ps)
  {
    if ps == [] then [] else Header(ps[0]) + ps[0].payload + Framed(ps[1..])
  }

  // ------------------------------------------------------------------ de-framing

  predicate MarkerAt(s: seq<Byte>, i: nat) {
    i + 4 <= |s| && s[i] == 0x55 && s[i + 1] == 0x55 && s[i + 2] == 0x00 && s[i + 3] == 0x01
  }

  /** memmem for the marker: its first position, or the length of the buffer. */
  function Find(s: seq<Byte>): (k: nat)
    ensures k <= |s|
    ensures k < |s| ==> MarkerAt(s, k)
    ensures forall i :: 0 <= i < k ==> !MarkerAt(s, i)
  {
    if s == [] || MarkerAt(s, 0) then 0
    else
      var k := Find(s[1..]);
      assert forall i :: 1 <= i < |s| ==> MarkerAt(s, i) == MarkerAt(s[1..], i - 1);
      k + 1
  }

  function Timestamp(b: seq<Byte>): nat
    requires |b| >= HDR_LEN
  {
    Load32(b, 8) * 0x1_0000_0000 + Load32(b, 12)
  }

  function Clip(n: nat, b: seq<Byte>): nat {
    if n > |b| then |b| else n
  }

  /** The units one write call emits for `b`. */
  function Units(b: seq<Byte>): seq<Unit>
    decreases |b|
  {
    if b == [] then []
    else if MarkerAt(b, 0) then
      if |b| < HDR_LEN then []
      else
        var n, rest := Load32(b, 4), b[HDR_LEN..];
        if n == 0 then Units(rest)
        else [Unit(Some((Timestamp(b), n)), rest[..Clip(n, rest)])] + Units(rest[Clip(n, rest)..])
    else
      var k := Find(b);
      [Unit(None, b[..k])] + Units(b[k..])
  }

  /** The byte count one write call returns for `b`. */
  function Written(b: seq<Byte>): nat
    decreases |b|
  {
    if b == [] then 0
    else if MarkerAt(b, 0) then
      if |b| < HDR_LEN then 0
      else
        var n, rest := Load32(b, 4), b[HDR_LEN..];
        if n == 0 then Written(rest) else HDR_LEN + Clip(n, rest) + Written(rest[Clip(n, rest)..])
    else
      var k := Find(b);
      k + Written(b[k..])
  }

  /** The inner loop: wait until the playpump has room for the frame, then write it.  `spaces` are
      the answers of successive buffer requests, after which the pump has room; `pesLen` is what
      the PES header takes of its `pesMax` bytes, `pcmExtra` the PCM preamble. */
  method Pump(header: Option<(nat, nat)>, announced: nat, rest: seq<Byte>, spaces: seq<nat>, from: nat,
              pesLen: nat, pesMax: nat, pcmExtra: nat)
    returns (out: seq<Unit>, taken: nat, turn: nat)
    requires pesLen <= pesMax && from <= |spaces|
    requires header.None? ==> announced <= |rest|
    ensures taken == Clip(announced, rest) && turn <= |spaces|
    ensures out == if announced == 0 then [] else [Unit(header, rest[..taken])]
  {
    out, taken, turn := [], 0, from;
    var frameBytes := announced;
    while frameBytes > 0
      invariant turn <= |spaces|
      invariant
        || (frameBytes == announced && out == [] && taken == 0)
        || (frameBytes == 0 < announced && taken == Clip(announced, rest) && out == [Unit(header, rest[..taken])])
      decreases frameBytes, |spaces| - turn
    {
      var required := (if frameBytes >= |rest| then frameBytes else |rest|)
                      + if header.Some? then pesMax + pcmExtra else 0;
      var space := required;
      if turn < |spaces| { space := spaces[turn]; turn := turn + 1; }
      if space >= required {
        var used := if header.Some? then pesLen + pcmExtra else 0;
        if header.Some? && frameBytes > |rest| { frameBytes := |rest|; }
        used := used + frameBytes;
        assert used <= space && |rest| >= frameBytes;
        out, taken := [Unit(header, rest[..frameBytes])], frameBytes;
        frameBytes := 0;
      }
    }
  }

  /** One turn of the outer loop: the frame found at the front of `b`, and the rest. */
  lemma OneFrame(b: seq<Byte>, header: Option<(nat, nat)>, n: nat, body: seq<Byte>)
    requires b != [] && (MarkerAt(b, 0) ==> |b| >= HDR_LEN)
    requires if MarkerAt(b, 0) then header == Some((Timestamp(b), n)) && n == Load32(b, 4) && body == b[HDR_LEN..]
             else header == None && n == Find(b) && body == b
    ensures Units(b) == (if n == 0 then [] else [Unit(header, body[..Clip(n, body)])]) + Units(body[Clip(n, body)..])
    ensures Written(b) == (if n == 0 then 0 else Clip(n, body) + if header.Some? then HDR_LEN else 0)
                          + Written(body[Clip(n, body)..])
  {
    if MarkerAt(b, 0) && n == 0 { assert body[0..] == body; }
  }

  /** nexus_tunnel_bout_write with a playpump that never fails.  What is emitted does not depend
      on how the pump paces it. */
  method Write(buffer: seq<Byte>, spaces: seq<nat>, pesLen: nat, pesMax: nat, pcmExtra: nat)
    returns (out: seq<Unit>, written: nat)
    requires pesLen <= pesMax
    ensures out == Units(buffer) && written == Written(buffer)
  {
    out, written := [], 0;
    var rest := buffer;
    var turn: nat := 0;
    while rest != []
      invariant out + Units(rest) == Units(buffer)
      invariant written + Written(rest) == Written(buffer)
      invariant turn <= |spaces|
      decreases |rest|
    {
      var header: Option<(nat, nat)> := None;
      var frameBytes := Find(rest);
      ghost var atTop := rest;
      if frameBytes == 0 {
        if |rest| < HDR_LEN { break; }
        frameBytes := Load32(rest, 4);
        header := Some((Timestamp(rest), frameBytes));
        rest := rest[HDR_LEN..];
      }
      var us, taken, next := Pump(header, frameBytes, rest, spaces, turn, pesLen, pesMax, pcmExtra);
      OneFrame(atTop, header, frameBytes, rest);
      Assoc(out, us, Units(rest[taken..]));
      out, turn := out + us, next;
      if us != [] { written := written + taken + if header.Some? then HDR_LEN else 0; }
      rest := rest[taken..];
    }
  }

  // ------------------------------------------------------------------ what comes out

  function Data(us: seq<Unit>): seq<Byte> {
    if us == [] then [] else us[0].data + Data(us[1..])
  }

  function Headers(us: seq<Unit>): seq<(nat, nat)> {
    if us == [] then [] else (if us[0].header.Some? then [us[0].header.value] else []) + Headers(us[1..])
  }

  function Payloads(ps: seq<Packet>): seq<Byte> {
    if ps == [] then [] else ps[0].payload + Payloads(ps[1..])
  }

  /** One PES header for every packet that has a payload. */
  function Announced(ps: seq<Packet>): seq<(nat, nat)> {
    if ps == [] then [] else AnnouncedBy(ps[0]) + Announced(ps[1..])
  }

  function AnnouncedBy(p: Packet): seq<(nat, nat)> {
    if p.payload == [] then [] else [(p.ts, |p.payload|)]
  }

  /** Header bytes that a write consumes without counting them: those of empty packets. */
  function Uncounted(ps: seq<Packet>): nat {
    if ps == [] then 0 else UncountedIn(ps[0]) + Uncounted(ps[1..])
  }

  function UncountedIn(p: Packet): nat {
    if p.payload == [] then HDR_LEN else 0
  }

  lemma LoadBe32(n: nat, s: seq<Byte>, off: nat)
    requires n < 0x1_0000_0000 && off + 4 <= |s| && s[off..off + 4] == Be32(n)
    ensures Load32(s, off) == n
  {
    var q := s[off..off + 4];
    assert s[off] == q[0] && s[off + 1] == q[1] && s[off + 2] == q[2] && s[off + 3] == q[3];
    Digits(n);
  }

  lemma Digits(n: nat)
    ensures n == n / 0x100_0000 * 0x100_0000 + n / 0x1_0000 % 0x100 * 0x1_0000 + n / 0x100 % 0x100 * 0x100 + n % 0x100
  {
    var a := n / 0x100;
    var b := n / 0x1_0000;
    assert a / 0x100 == b && b / 0x100 == n / 0x100_0000;
  }

  /** A buffer that starts with a packet's header is read back as that packet's length and time. */
  lemma HeaderReads(p: Packet, body: seq<Byte>)
    requires Encodable(p)
    ensures var b := Header(p) + body;
            && MarkerAt(b, 0) && |b| >= HDR_LEN && b[HDR_LEN..] == body
            && Load32(b, 4) == |p.payload| && Timestamp(b) == p.ts
  {
    var b := Header(p) + body;
    assert b[4..8] == Be32(|p.payload|);
    assert b[8..12] == Be32(p.ts / 0x1_0000_0000);
    assert b[12..16] == Be32(p.ts % 0x1_0000_0000);
    LoadBe32(|p.payload|, b, 4);
    LoadBe32(p.ts / 0x1_0000_0000, b, 8);
    LoadBe32(p.ts % 0x1_0000_0000, b, 12);
  }

  /** A whole packet, or the beginning of the last one, at the front of a write. */
  lemma PacketFirst(p: Packet, part: seq<Byte>, rest: seq<Byte>)
    requires Encodable(p) && part <= p.payload && (part == p.payload || rest == [])
    ensures var b := Header(p) + part + rest;
            && Units(b) == (if p.payload == [] then [] else [Unit(Some((p.ts, |p.payload|)), part)]) + Units(rest)
            && Written(b) == (if p.payload == [] then 0 else HDR_LEN + |part|) + Written(rest)
  {
    var b := Header(p) + part + rest;
    assert b == Header(p) + (part + rest);
    HeaderReads(p, part + rest);
    var body := b[HDR_LEN..];
    assert Clip(|p.payload|, body) == |part| || p.payload == [];
    assert body[..|part|] == part && body[|part|..] == rest;
  }

  lemma UnitFirst(u: Unit, us: seq<Unit>)
    ensures Data([u] + us) == u.data + Data(us)
    ensures Headers([u] + us) == (if u.header.Some? then [u.header.value] else []) + Headers(us)
  {
    assert ([u] + us)[1..] == us;
  }

  lemma PacketOut(p: Packet, part: seq<Byte>, rest: seq<Byte>, b: seq<Byte>)
    requires Encodable(p) && part <= p.payload && (part == p.payload || rest == [])
    requires b == Header(p) + part + rest
    ensures MarkerAt(b, 0)
    ensures Data(Units(b)) == part + Data(Units(rest))
    ensures Headers(Units(b)) == AnnouncedBy(p) + Headers(Units(rest))
    ensures Written(b) + UncountedIn(p) == HDR_LEN + |part| + Written(rest)
  {
    var head := if p.payload == [] then [] else [Unit(Some((p.ts, |p.payload|)), part)];
    PacketFirst(p, part, rest);
    Assoc(Header(p), part, rest);
    HeaderReads(p, part + rest);
    assert Units(b) == head + Units(rest);
    if p.payload == [] {
      assert head + Units(rest) == Units(rest);
    } else {
      UnitFirst(head[0], Units(rest));
    }
  }

  /** De-framing inverts framing for every packet list, whatever bytes the payloads hold: payloads
      in order, one PES header for each, and the full length returned less the headers of empty
      packets, which are consumed without being counted. */
  lemma {:induction false} RoundTrip(ps: seq<Packet>)
    requires AllEncodable(ps)
    ensures Data(Units(Framed(ps))) == Payloads(ps)
    ensures Headers(Units(Framed(ps))) == Announced(ps)
    ensures Written(Framed(ps)) + Uncounted(ps) == |Framed(ps)|
    ensures ps != [] ==> MarkerAt(Framed(ps), 0)
  {
    if ps != [] {
      RoundTrip(ps[1..]);
      PacketOut(ps[0], ps[0].payload, Framed(ps[1..]), Framed(ps));
    }
  }

  lemma {:induction false} UncountedIff(ps: seq<Packet>)
    ensures Uncounted(ps) == 0 <==> forall p :: p in ps ==> p.payload != []
  {
    if ps != [] {
      UncountedIff(ps[1..]);
      assert forall p :: p in ps <==> p == ps[0] || p in ps[1..];
    }
  }

  /** The write returns the full length exactly if no packet is empty. */
  lemma CountsAllIff(ps: seq<Packet>)
    requires AllEncodable(ps)
    ensures Written(Framed(ps)) == |Framed(ps)| <==> forall p :: p in ps ==> p.payload != []
  {
    RoundTrip(ps);
    UncountedIff(ps);
  }

  /** A lone empty packet is consumed whole and nothing of it is counted. */
  lemma EmptyPacketUncounted() returns (ps: seq<Packet>)
    ensures AllEncodable(ps) && |Framed(ps)| == HDR_LEN && Written(Framed(ps)) == 0
  {
    ps := [Packet(0, [])];
    RoundTrip(ps);
    assert ps[1..] == [];
  }

  // ------------------------------------------------------------------ packets split across writes

  predicate MarkerFree(s: seq<Byte>) {
    forall i :: 0 <= i < |s| ==> !MarkerAt(s, i)
  }

  /** The marker cannot overlap itself, so a marker-free tail does not hide the next header. */
  lemma TailBeforeHeader(tail: seq<Byte>, rest: seq<Byte>)
    requires tail != [] && MarkerFree(tail) && (rest == [] || MarkerAt(rest, 0))
    ensures !MarkerAt(tail + rest, 0) && Find(tail + rest) == |tail|
  {
    var b := tail + rest;
    forall i | 0 <= i < |tail| ensures !MarkerAt(b, i) {
      if i + 4 <= |tail| { assert !MarkerAt(tail, i); }
    }
    if rest != [] { assert MarkerAt(b, |tail|); }
  }

  /** A write that begins inside a payload: the tail goes out first, unheaded. */
  lemma TailFirst(tail: seq<Byte>, rest: seq<Byte>)
    requires MarkerFree(tail) && (rest == [] || MarkerAt(rest, 0))
    ensures Data(Units(tail + rest)) == tail + Data(Units(rest))
    ensures Headers(Units(tail + rest)) == Headers(Units(rest))
    ensures Written(tail + rest) == |tail| + Written(rest)
  {
    if tail == [] {
      assert tail + rest == rest;
    } else {
      TailBeforeHeader(tail, rest);
      var b := tail + rest;
      assert b[..|tail|] == tail && b[|tail|..] == rest;
      assert Units(b) == [Unit(None, tail)] + Units(rest);
      UnitFirst(Unit(None, tail), Units(rest));
    }
  }

  /** Whole packets at the front of a write go out before whatever follows them. */
  lemma {:induction false} PacketsThen(ps: seq<Packet>, rest: seq<Byte>)
    requires AllEncodable(ps)
    ensures Units(Framed(ps) + rest) == Units(Framed(ps)) + Units(rest)
    ensures Written(Framed(ps) + rest) == Written(Framed(ps)) + Written(rest)
    ensures ps != [] ==> MarkerAt(Framed(ps) + rest, 0)
  {
    if ps == [] {
      assert Framed(ps) + rest == rest;
    } else {
      var p, f := ps[0], Framed(ps[1..]);
      var head := if p.payload == [] then [] else [Unit(Some((p.ts, |p.payload|)), p.payload)];
      PacketsThen(ps[1..], rest);
      Assoc(Header(p) + p.payload, f, rest);
      Assoc(Header(p), p.payload, f + rest);
      HeaderReads(p, p.payload + (f + rest));
      PacketFirst(p, p.payload, f + rest);
      PacketFirst(p, p.payload, f);
      Assoc(head, Units(f), Units(rest));
    }
  }

  lemma {:induction false} UnitsAppend(us: seq<Unit>, vs: seq<Unit>)
    ensures Data(us + vs) == Data(us) + Data(vs)
    ensures Headers(us + vs) == Headers(us) + Headers(vs)
  {
    if us == [] {
      assert us + vs == vs;
    } else {
      UnitsAppend(us[1..], vs);
      UnitFirst(us[0], us[1..] + vs);
      assert us + vs == [us[0]] + (us[1..] + vs);
      Assoc(us[0].data, Data(us[1..]), Data(vs));
      Assoc(if us[0].header.Some? then [us[0].header.value] else [], Headers(us[1..]), Headers(vs));
    }
  }

  /** What the beginning of a write emits and counts, when it starts with whole packets. */
  lemma PacketsFirst(ps: seq<Packet>, rest: seq<Byte>)
    requires AllEncodable(ps)
    ensures Data(Units(Framed(ps) + rest)) == Payloads(ps) + Data(Units(rest))
    ensures Headers(Units(Framed(ps) + rest)) == Announced(ps) + Headers(Units(rest))
    ensures Written(Framed(ps) + rest) + Uncounted(ps) == |Framed(ps)| + Written(rest)
    ensures ps != [] ==> MarkerAt(Framed(ps) + rest, 0)
  {
    PacketsThen(ps, rest);
    UnitsAppend(Units(Framed(ps)), Units(rest));
    RoundTrip(ps);
  }

  /** Whole packets followed by the beginning of one more. */
  lemma PacketsThenPart(ps: seq<Packet>, q: Packet, k: nat, b: seq<Byte>)
    requires AllEncodable(ps) && Encodable(q) && k <= |q.payload|
    requires b == Framed(ps) + (Header(q) + q.payload[..k])
    ensures MarkerAt(b, 0)
    ensures Data(Units(b)) == Payloads(ps) + q.payload[..k]
    ensures Headers(Units(b)) == Announced(ps) + AnnouncedBy(q)
    ensures Written(b) + Uncounted(ps) + UncountedIn(q) == |b|
  {
    var part := q.payload[..k];
    PartAlone(q, part);
    PacketsFirst(ps, Header(q) + part);
    if ps == [] { assert b == Header(q) + part; }
  }

  lemma PartAlone(q: Packet, part: seq<Byte>)
    requires Encodable(q) && part <= q.payload
    ensures var b := Header(q) + part;
            && MarkerAt(b, 0)
            && Data(Units(b)) == part && Headers(Units(b)) == AnnouncedBy(q)
            && Written(b) + UncountedIn(q) == |b|
  {
    assert Header(q) + part == Header(q) + part + [];
    PacketOut(q, part, [], Header(q) + part);
  }

  // ------------------------------------------------------------------ a write that ends inside a header

  /** A header that the write cuts after its marker is left alone: it changes neither what is
      emitted nor what is counted, so the caller sends it again. */
  lemma CutHeaderLeftAlone(ps: seq<Packet>, h: seq<Byte>)
    requires AllEncodable(ps) && MarkerAt(h, 0) && |h| < HDR_LEN
    ensures Units(Framed(ps) + h) == Units(Framed(ps))
    ensures Written(Framed(ps) + h) == Written(Framed(ps))
  {
    PacketsThen(ps, h);
  }

  /** A header cut inside its marker goes out as payload instead, and is counted: the bytes of the
      packets come out unspoilt exactly if none or all of the marker is in the write. */
  lemma HeaderCutIff(ps: seq<Packet>, q: Packet, k: nat)
    requires AllEncodable(ps) && Encodable(q) && k < HDR_LEN
    ensures Data(Units(Framed(ps) + Header(q)[..k])) == Payloads(ps) <==> k == 0 || |MARKER| <= k
    ensures Written(Framed(ps) + Header(q)[..k]) + Uncounted(ps) == |Framed(ps)| <==> k == 0 || |MARKER| <= k
  {
    var h := Header(q)[..k];
    PacketsFirst(ps, h);
    HeaderStarts(q, k);
    if k < |MARKER| {
      TailFirst(h, []);
      assert h + [] == h;
    }
  }

  /** Where a write call ends: still inside the payload the previous one ended in, or inside the
      payload or the header of packet `j`, after `k` of its bytes. */
  datatype Cut = Within(k: nat) | In(j: nat, k: nat) | OnHeader(j: nat, k: nat)

  /** The cut lies in what is left: `tail` of one payload, then packets `ps`.  A header may be cut
      anywhere after its marker. */
  predicate Legal(tail: seq<Byte>, ps: seq<Packet>, c: Cut) {
    match c
    case Within(k) => k <= |tail|
    case In(j, k) => j < |ps| && k <= |ps[j].payload|
    case OnHeader(j, k) => j < |ps| && |MARKER| <= k < HDR_LEN
  }

  predicate AllLegal(tail: seq<Byte>, ps: seq<Packet>, cuts: seq<Cut>)
    decreases |cuts|
  {
    cuts == [] ||
    (Legal(tail, ps, cuts[0]) && AllLegal(TailAfter(tail, ps, cuts[0]), PacketsAfter(tail, ps, cuts[0]), cuts[1..]))
  }

  function TailAfter(tail: seq<Byte>, ps: seq<Packet>, c: Cut): seq<Byte>
    requires Legal(tail, ps, c)
  {
    match c
    case Within(k) => tail[k..]
    case In(j, k) => ps[j].payload[k..]
    case OnHeader(_, _) => []
  }

  function PacketsAfter(tail: seq<Byte>, ps: seq<Packet>, c: Cut): seq<Packet>
    requires Legal(tail, ps, c)
  {
    match c
    case Within(_) => ps
    case In(j, _) => ps[j + 1..]
    case OnHeader(j, _) => ps[j..]
  }

  function Chunk(tail: seq<Byte>, ps: seq<Packet>, c: Cut): seq<Byte>
    requires AllEncodable(ps) && Legal(tail, ps, c)
  {
    match c
    case Within(k) => tail[..k]
    case In(j, k) => tail + (Framed(ps[..j]) + (Header(ps[j]) + ps[j].payload[..k]))
    case OnHeader(j, k) => tail + (Framed(ps[..j]) + Header(ps[j])[..k])
  }

  /** The bytes of the call that are used; a header cut short stays with the caller. */
  function Taken(tail: seq<Byte>, ps: seq<Packet>, c: Cut): (t: seq<Byte>)
    requires AllEncodable(ps) && Legal(tail, ps, c)
    ensures t <= Chunk(tail, ps, c)
  {
    if c.OnHeader? then
      assert tail + (Framed(ps[..c.j]) + Header(ps[c.j])[..c.k]) == (tail + Framed(ps[..c.j])) + Header(ps[c.j])[..c.k];
      tail + Framed(ps[..c.j])
    else Chunk(tail, ps, c)
  }

  /** Header bytes one write call consumes without counting them. */
  function UncountedBy(tail: seq<Byte>, ps: seq<Packet>, c: Cut): nat
    requires Legal(tail, ps, c)
  {
    match c
    case Within(_) => 0
    case In(j, _) => Uncounted(ps[..j]) + UncountedIn(ps[j])
    case OnHeader(j, _) => Uncounted(ps[..j])
  }

  /** The same for each of the write calls a stream is cut into. */
  function Shortfalls(tail: seq<Byte>, ps: seq<Packet>, cuts: seq<Cut>): seq<nat>
    requires AllLegal(tail, ps, cuts)
    decreases |cuts|
  {
    if cuts == [] then [Uncounted(ps)]
    else [UncountedBy(tail, ps, cuts[0])]
         + Shortfalls(TailAfter(tail, ps, cuts[0]), PacketsAfter(tail, ps, cuts[0]), cuts[1..])
  }

  /** The write calls a stream is cut into; the last one takes what is left. */
  function Chunks(tail: seq<Byte>, ps: seq<Packet>, cuts: seq<Cut>): seq<seq<Byte>>
    requires AllEncodable(ps) && AllLegal(tail, ps, cuts)
    decreases |cuts|
  {
    if cuts == [] then [tail + Framed(ps)]
    else [Chunk(tail, ps, cuts[0])]
         + Chunks(TailAfter(tail, ps, cuts[0]), PacketsAfter(tail, ps, cuts[0]), cuts[1..])
  }

  /** What each of them uses. */
  function Takens(tail: seq<Byte>, ps: seq<Packet>, cuts: seq<Cut>): seq<seq<Byte>>
    requires AllEncodable(ps) && AllLegal(tail, ps, cuts)
    decreases |cuts|
  {
    if cuts == [] then [tail + Framed(ps)]
    else [Taken(tail, ps, cuts[0])]
         + Takens(TailAfter(tail, ps, cuts[0]), PacketsAfter(tail, ps, cuts[0]), cuts[1..])
  }

  function Joined(cs: seq<seq<Byte>>): seq<Byte> {
    if cs == [] then [] else cs[0] + Joined(cs[1..])
  }

  /** Payload bytes and PES headers that a series of write calls emits. */
  function DataOf(cs: seq<seq<Byte>>): seq<Byte> {
    if cs == [] then [] else Data(Units(cs[0])) + DataOf(cs[1..])
  }

  function HeadersOf(cs: seq<seq<Byte>>): seq<(nat, nat)> {
    if cs == [] then [] else Headers(Units(cs[0])) + HeadersOf(cs[1..])
  }

  lemma FramedFirst(p: Packet, ps: seq<Packet>)
    requires Encodable(p) && AllEncodable(ps)
    ensures Framed([p] + ps) == (Header(p) + p.payload) + Framed(ps)
  {
    assert ([p] + ps)[1..] == ps;
  }

  lemma {:induction false} FramedAppend(ps: seq<Packet>, qs: seq<Packet>)
    requires AllEncodable(ps) && AllEncodable(qs)
    ensures Framed(ps + qs) == Framed(ps) + Framed(qs)
  {
    if ps == [] {
      assert ps + qs == qs;
    } else {
      FramedAppend(ps[1..], qs);
      FramedFirst(ps[0], ps[1..] + qs);
      assert ps + qs == [ps[0]] + (ps[1..] + qs);
      Assoc(Header(ps[0]) + ps[0].payload, Framed(ps[1..]), Framed(qs));
    }
  }

  lemma {:induction false} PayloadsAppend(ps: seq<Packet>, qs: seq<Packet>)
    ensures Payloads(ps + qs) == Payloads(ps) + Payloads(qs)
    ensures Announced(ps + qs) == Announced(ps) + Announced(qs)
  {
    if ps == [] {
      assert ps + qs == qs;
    } else {
      PayloadsAppend(ps[1..], qs);
      assert (ps + qs)[1..] == ps[1..] + qs;
      Assoc(ps[0].payload, Payloads(ps[1..]), Payloads(qs));
      Assoc(AnnouncedBy(ps[0]), Announced(ps[1..]), Announced(qs));
    }
  }

  /** One write call: what it takes off the stream, and what it emits. */
  lemma OneChunk(tail: seq<Byte>, ps: seq<Packet>, c: Cut)
    requires AllEncodable(ps) && MarkerFree(tail) && Legal(tail, ps, c)
    ensures Taken(tail, ps, c) + (TailAfter(tail, ps, c) + Framed(PacketsAfter(tail, ps, c))) == tail + Framed(ps)
    ensures Chunk(tail, ps, c) <= tail + Framed(ps)
    ensures Data(Units(Chunk(tail, ps, c))) + (TailAfter(tail, ps, c) + Payloads(PacketsAfter(tail, ps, c)))
            == tail + Payloads(ps)
    ensures Headers(Units(Chunk(tail, ps, c))) + Announced(PacketsAfter(tail, ps, c)) == Announced(ps)
    ensures Written(Chunk(tail, ps, c)) + UncountedBy(tail, ps, c) == |Taken(tail, ps, c)|
  {
    match c
    case Within(k) =>
      ChunkWithin(tail, ps, k);
      Prefix(Chunk(tail, ps, c), TailAfter(tail, ps, c) + Framed(PacketsAfter(tail, ps, c)));
    case In(j, k) =>
      ChunkBytes(tail, ps, j, k);
      Prefix(Chunk(tail, ps, c), TailAfter(tail, ps, c) + Framed(PacketsAfter(tail, ps, c)));
      ChunkEmits(tail, ps, j, k);
    case OnHeader(j, k) => ChunkOnHeader(tail, ps, j, k);
  }

  lemma Prefix(a: seq<Byte>, b: seq<Byte>)
    ensures a <= a + b
  {
  }

  lemma ChunkOnHeader(tail: seq<Byte>, ps: seq<Packet>, j: nat, k: nat)
    requires AllEncodable(ps) && MarkerFree(tail) && Legal(tail, ps, OnHeader(j, k))
    ensures (tail + Framed(ps[..j])) + ([] + Framed(ps[j..])) == tail + Framed(ps)
    ensures tail + (Framed(ps[..j]) + Header(ps[j])[..k]) <= tail + Framed(ps)
    ensures var b := tail + (Framed(ps[..j]) + Header(ps[j])[..k]);
            && Data(Units(b)) + ([] + Payloads(ps[j..])) == tail + Payloads(ps)
            && Headers(Units(b)) + Announced(ps[j..]) == Announced(ps)
            && Written(b) + Uncounted(ps[..j]) == |tail + Framed(ps[..j])|
  {
    var before, from, h := ps[..j], ps[j..], Header(ps[j])[..k];
    assert ps == before + from;
    FramedAppend(before, from);
    PayloadsAppend(before, from);
    assert h <= Framed(from) by { HeaderComesFirst(from, k); }
    PrefixLater(Framed(before), h, Framed(from));
    PrefixLater(tail, Framed(before) + h, Framed(ps));
    assert [] + Framed(from) == Framed(from) && [] + Payloads(from) == Payloads(from);
    Assoc(tail, Framed(before), Framed(from));
    Assoc(tail, Payloads(before), Payloads(from));
    assert MarkerAt(h, 0) by { HeaderStarts(ps[j], k); }
    CutHeaderEmits(tail, before, h);
  }

  lemma PrefixLater(a: seq<Byte>, b: seq<Byte>, c: seq<Byte>)
    requires b <= c
    ensures a + b <= a + c
  {
  }

  lemma HeaderComesFirst(ps: seq<Packet>, k: nat)
    requires AllEncodable(ps) && ps != [] && k <= HDR_LEN
    ensures Header(ps[0])[..k] <= Framed(ps)
  {
    Assoc(Header(ps[0]), ps[0].payload, Framed(ps[1..]));
  }

  lemma HeaderStarts(p: Packet, k: nat)
    requires Encodable(p) && k <= HDR_LEN
    ensures MarkerAt(Header(p)[..k], 0) <==> |MARKER| <= k
    ensures k < |MARKER| ==> MarkerFree(Header(p)[..k])
  {
  }

  lemma CutHeaderEmits(tail: seq<Byte>, ps: seq<Packet>, h: seq<Byte>)
    requires AllEncodable(ps) && MarkerFree(tail) && MarkerAt(h, 0) && |h| < HDR_LEN
    ensures var b := tail + (Framed(ps) + h);
            && Data(Units(b)) == tail + Payloads(ps)
            && Headers(Units(b)) == Announced(ps)
            && Written(b) + Uncounted(ps) == |tail + Framed(ps)|
  {
    CutHeaderLeftAlone(ps, h);
    RoundTrip(ps);
    PacketsThen(ps, h);
    if ps == [] { assert Framed(ps) + h == h; }
    TailFirst(tail, Framed(ps) + h);
  }

  lemma ChunkWithin(tail: seq<Byte>, ps: seq<Packet>, k: nat)
    requires AllEncodable(ps) && MarkerFree(tail) && k <= |tail|
    ensures tail[..k] + (tail[k..] + Framed(ps)) == tail + Framed(ps)
    ensures Data(Units(tail[..k])) + (tail[k..] + Payloads(ps)) == tail + Payloads(ps)
    ensures Headers(Units(tail[..k])) == []
    ensures Written(tail[..k]) == k
  {
    assert MarkerFree(tail[..k]) by {
      assert forall i :: 0 <= i < k ==> MarkerAt(tail[..k], i) ==> MarkerAt(tail, i);
    }
    TailFirst(tail[..k], []);
    assert tail[..k] + [] == tail[..k] && tail[..k] + tail[k..] == tail;
    Assoc(tail[..k], tail[k..], Framed(ps));
    Assoc(tail[..k], tail[k..], Payloads(ps));
  }

  lemma ChunkBytes(tail: seq<Byte>, ps: seq<Packet>, j: nat, k: nat)
    requires AllEncodable(ps) && j < |ps| && k <= |ps[j].payload|
    ensures (tail + (Framed(ps[..j]) + (Header(ps[j]) + ps[j].payload[..k]))) + (ps[j].payload[k..] + Framed(ps[j + 1..]))
            == tail + Framed(ps)
  {
    var q, r, f := ps[j], Framed(ps[j + 1..]), Framed(ps[..j]);
    assert ps == ps[..j] + ps[j..] && ps[j..][1..] == ps[j + 1..];
    FramedAppend(ps[..j], ps[j..]);
    assert q.payload == q.payload[..k] + q.payload[k..];
    Assoc(q.payload[..k], q.payload[k..], r);
    Assoc(Header(q), q.payload[..k], q.payload[k..] + r);
    Assoc(Header(q), q.payload, r);
    Assoc(f, Header(q) + q.payload[..k], q.payload[k..] + r);
    Assoc(tail, f + (Header(q) + q.payload[..k]), q.payload[k..] + r);
  }

  lemma ChunkEmits(tail: seq<Byte>, ps: seq<Packet>, j: nat, k: nat)
    requires AllEncodable(ps) && MarkerFree(tail) && j < |ps| && k <= |ps[j].payload|
    ensures var us := Units(tail + (Framed(ps[..j]) + (Header(ps[j]) + ps[j].payload[..k])));
            && Data(us) + (ps[j].payload[k..] + Payloads(ps[j + 1..])) == tail + Payloads(ps)
            && Headers(us) + Announced(ps[j + 1..]) == Announced(ps)
    ensures var b := tail + (Framed(ps[..j]) + (Header(ps[j]) + ps[j].payload[..k]));
            Written(b) + Uncounted(ps[..j]) + UncountedIn(ps[j]) == |b|
  {
    var part := Framed(ps[..j]) + (Header(ps[j]) + ps[j].payload[..k]);
    PacketsThenPart(ps[..j], ps[j], k, part);
    TailFirst(tail, part);
    RestOfPackets(tail, ps, j, k);
  }

  lemma RestOfPackets(tail: seq<Byte>, ps: seq<Packet>, j: nat, k: nat)
    requires j < |ps| && k <= |ps[j].payload|
    ensures (tail + (Payloads(ps[..j]) + ps[j].payload[..k])) + (ps[j].payload[k..] + Payloads(ps[j + 1..]))
            == tail + Payloads(ps)
    ensures (Announced(ps[..j]) + AnnouncedBy(ps[j])) + Announced(ps[j + 1..]) == Announced(ps)
  {
    var q, r, f := ps[j], Payloads(ps[j + 1..]), Payloads(ps[..j]);
    assert ps == ps[..j] + ps[j..] && ps[j..][1..] == ps[j + 1..];
    PayloadsAppend(ps[..j], ps[j..]);
    assert q.payload == q.payload[..k] + q.payload[k..];
    Assoc(q.payload[..k], q.payload[k..], r);
    Assoc(f, q.payload[..k], q.payload[k..] + r);
    Assoc(tail, f + q.payload[..k], q.payload[k..] + r);
    Assoc(Announced(ps[..j]), AnnouncedBy(q), Announced(ps[j + 1..]));
  }

  /** For marker-free payloads it does not matter where a stream is cut into write calls, outside
      the markers: what the calls use covers the stream, and together they emit the payload bytes
      in order under one PES header for each packet. */
  lemma {:induction false} SplitInvariant(tail: seq<Byte>, ps: seq<Packet>, cuts: seq<Cut>)
    requires AllEncodable(ps) && MarkerFree(tail) && (forall p :: p in ps ==> MarkerFree(p.payload))
    requires AllLegal(tail, ps, cuts)
    ensures Joined(Takens(tail, ps, cuts)) == tail + Framed(ps)
    ensures DataOf(Chunks(tail, ps, cuts)) == tail + Payloads(ps)
    ensures HeadersOf(Chunks(tail, ps, cuts)) == Announced(ps)
    decreases |cuts|
  {
    if cuts == [] {
      RoundTrip(ps);
      TailFirst(tail, Framed(ps));
    } else {
      var t', ps' := TailAfter(tail, ps, cuts[0]), PacketsAfter(tail, ps, cuts[0]);
      OneChunk(tail, ps, cuts[0]);
      SuffixMarkerFree(tail, ps, cuts[0]);
      SplitInvariant(t', ps', cuts[1..]);
      assert Chunks(tail, ps, cuts)[1..] == Chunks(t', ps', cuts[1..]);
      assert Takens(tail, ps, cuts)[1..] == Takens(t', ps', cuts[1..]);
    }
  }

  /** Each call returns the number of bytes it used less its shortfall. */
  ghost predicate Return(cs: seq<seq<Byte>>, used: seq<seq<Byte>>, short: seq<nat>) {
    |short| == |cs| == |used| && forall i :: 0 <= i < |cs| ==> Written(cs[i]) + short[i] == |used[i]|
  }

  lemma ReturnFirst(c: seq<Byte>, t: seq<Byte>, n: nat, cs: seq<seq<Byte>>, used: seq<seq<Byte>>, short: seq<nat>)
    requires Written(c) + n == |t| && Return(cs, used, short)
    ensures Return([c] + cs, [t] + used, [n] + short)
  {
  }

  /** And each of the calls returns the number of bytes it used, less the headers of the empty
      packets among them. */
  lemma {:induction false} SplitCounts(tail: seq<Byte>, ps: seq<Packet>, cuts: seq<Cut>)
    requires AllEncodable(ps) && MarkerFree(tail) && (forall p :: p in ps ==> MarkerFree(p.payload))
    requires AllLegal(tail, ps, cuts)
    ensures Return(Chunks(tail, ps, cuts), Takens(tail, ps, cuts), Shortfalls(tail, ps, cuts))
    decreases |cuts|
  {
    if cuts == [] {
      RoundTrip(ps);
      TailFirst(tail, Framed(ps));
    } else {
      var t', ps' := TailAfter(tail, ps, cuts[0]), PacketsAfter(tail, ps, cuts[0]);
      OneChunk(tail, ps, cuts[0]);
      SuffixMarkerFree(tail, ps, cuts[0]);
      SplitCounts(t', ps', cuts[1..]);
      ReturnFirst(Chunk(tail, ps, cuts[0]), Taken(tail, ps, cuts[0]), UncountedBy(tail, ps, cuts[0]),
                  Chunks(t', ps', cuts[1..]), Takens(t', ps', cuts[1..]), Shortfalls(t', ps', cuts[1..]));
    }
  }

  /** The calls a caller makes that sends `stream` piece by piece, each time from the first byte
      that has not been counted yet, until everything has been. */
  ghost predicate Resumed(stream: seq<Byte>, cs: seq<seq<Byte>>)
    decreases |cs|
  {
    if cs == [] then stream == []
    else cs[0] <= stream && Written(cs[0]) <= |cs[0]| && Resumed(stream[Written(cs[0])..], cs[1..])
  }

  /** If no packet is empty, the counts are what a caller needs to resume: cut anywhere outside the
      markers, a header that was cut is sent again, whole, and the stream is delivered. */
  lemma {:induction false} CallerResumes(tail: seq<Byte>, ps: seq<Packet>, cuts: seq<Cut>)
    requires AllEncodable(ps) && MarkerFree(tail) && (forall p :: p in ps ==> MarkerFree(p.payload))
    requires AllLegal(tail, ps, cuts) && (forall p :: p in ps ==> p.payload != [])
    ensures Resumed(tail + Framed(ps), Chunks(tail, ps, cuts))
    decreases |cuts|
  {
    if cuts == [] {
      CountsAllIff(ps);
      RoundTrip(ps);
      TailFirst(tail, Framed(ps));
      var b := tail + Framed(ps);
      assert b[Written(b)..] == [] && Chunks(tail, ps, cuts)[1..] == [];
    } else {
      var c := cuts[0];
      var t', ps' := TailAfter(tail, ps, c), PacketsAfter(tail, ps, c);
      OneChunk(tail, ps, c);
      NoneUncounted(tail, ps, c);
      SuffixMarkerFree(tail, ps, c);
      CallerResumes(t', ps', cuts[1..]);
      assert Chunks(tail, ps, cuts)[1..] == Chunks(t', ps', cuts[1..]);
      assert (tail + Framed(ps))[Written(Chunk(tail, ps, c))..] == t' + Framed(ps');
    }
  }

  lemma NoneUncounted(tail: seq<Byte>, ps: seq<Packet>, c: Cut)
    requires Legal(tail, ps, c) && (forall p :: p in ps ==> p.payload != [])
    ensures UncountedBy(tail, ps, c) == 0
  {
    if !c.Within? { UncountedIff(ps[..c.j]); }
  }

  lemma SuffixMarkerFree(tail: seq<Byte>, ps: seq<Packet>, c: Cut)
    requires MarkerFree(tail) && (forall p :: p in ps ==> MarkerFree(p.payload)) && Legal(tail, ps, c)
    ensures MarkerFree(TailAfter(tail, ps, c))
  {
    if c.OnHeader? { return; }
    var (whole, k) := if c.Within? then (tail, c.k) else (ps[c.j].payload, c.k);
    assert MarkerFree(whole);
    forall i | 0 <= i < |whole[k..]| ensures !MarkerAt(whole[k..], i) {
      assert !MarkerAt(whole, k + i);
    }
  }

  /** A write that begins inside a payload emits that tail unchanged exactly if it holds no
      marker: otherwise a header's worth of payload is taken for a header. */
  lemma TailIntactIff(tail: seq<Byte>)
    ensures Data(Units(tail)) == tail <==> MarkerFree(tail)
  {
    if MarkerFree(tail) {
      TailFirst(tail, []);
      assert tail + [] == tail;
    } else {
      Shrinks(tail);
    }
  }

  lemma {:induction false} Shrinks(b: seq<Byte>)
    ensures |Data(Units(b))| <= |b|
    ensures !MarkerFree(b) ==> |Data(Units(b))| < |b|
    decreases |b|
  {
    if b != [] && !(MarkerAt(b, 0) && |b| < HDR_LEN) {
      var marked := MarkerAt(b, 0);
      var n := if marked then Load32(b, 4) else Find(b);
      var header := if marked then Some((Timestamp(b), n)) else None;
      var body := if marked then b[HDR_LEN..] else b;
      OneFrame(b, header, n, body);
      var rest := body[Clip(n, body)..];
      Shrinks(rest);
      if n == 0 {
        assert Units(b) == Units(rest);
      } else {
        UnitFirst(Unit(header, body[..Clip(n, body)]), Units(rest));
        assert !marked && n < |b| ==> MarkerAt(rest, 0);
      }
    }
  }
}
