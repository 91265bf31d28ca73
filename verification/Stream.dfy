/** Reassembly of OpenFlow messages from reads (ofagent/of_connection.py). The message
    library is a parameter: which versions exist, and how a raw message parses, if it does. */
module OpenFlowStream {
  import opened Collections

  newtype byte = x: int | 0 <= x < 256

  datatype Library<!M> = Library(known: byte -> bool, parse: seq<byte> -> Option<M>)

  const HEADER := 8

  /** The length field of a header, bytes 2 and 3 in network order. */
  function LengthField(s: seq<byte>): nat
    requires |s| >= HEADER
  {
    s[2] as int * 256 + s[3] as int
  }

  // --------------------------------------------------------- what a stream means

  /** A complete message and nothing more. */
  predicate IsMessage<M>(lib: Library<M>, raw: seq<byte>) {
    |raw| >= HEADER && LengthField(raw) == |raw| && lib.known(raw[0]) && lib.parse(raw).Some?
  }

  /** Not yet a complete message, and nothing wrong so far. */
  predicate IsPartial<M>(lib: Library<M>, s: seq<byte>) {
    |s| < HEADER || (lib.known(s[0]) && LengthField(s) > |s|)
  }

  /** Starts with something that raises: an unknown version, a length below the
      header's, or a complete message that does not parse. */
  predicate IsBroken<M>(lib: Library<M>, s: seq<byte>) {
    && |s| >= HEADER
    && (lib.known(s[0]) ==> LengthField(s) <= |s| && (LengthField(s) < HEADER || lib.parse(s[..LengthField(s)]).None?))
  }

  function Concat<T>(parts: seq<seq<T>>): seq<T> {
    if parts == [] then [] else parts[0] + Concat(parts[1..])
  }

  /** `s` is the messages `raws`, then `rest`. */
  predicate IsFraming<M>(lib: Library<M>, s: seq<byte>, raws: seq<seq<byte>>, rest: seq<byte>) {
    && s == Concat(raws) + rest
    && (forall i :: 0 <= i < |raws| ==> IsMessage(lib, raws[i]))
    && (IsPartial(lib, rest) || IsBroken(lib, rest))
  }

  lemma {:induction false} FramingUnique<M>(lib: Library<M>, s: seq<byte>, raws: seq<seq<byte>>, rest: seq<byte>,
                                            raws': seq<seq<byte>>, rest': seq<byte>)
    requires IsFraming(lib, s, raws, rest) && IsFraming(lib, s, raws', rest')
    ensures raws == raws' && rest == rest'
    decreases |raws|
  {
    hide IsMessage, IsPartial, IsBroken;
    if raws != [] {
      var t := Concat(raws[1..]) + rest;
      assert s == raws[0] + t;
      if raws' != [] {
        var t' := Concat(raws'[1..]) + rest';
        assert s == raws'[0] + t';
        SameFirst(lib, s, raws[0], t, raws'[0], t');
        FramingUnique(lib, t, raws[1..], rest, raws'[1..], rest');
      } else {
        assert s == rest';
        NotARest(lib, raws[0], t);
      }
    } else if raws' != [] {
      assert s == rest && s == raws'[0] + (Concat(raws'[1..]) + rest');
      NotARest(lib, raws'[0], Concat(raws'[1..]) + rest');
    } else {
      assert s == rest && s == rest';
    }
  }

  lemma SameFirst<M>(lib: Library<M>, s: seq<byte>, a: seq<byte>, t: seq<byte>, b: seq<byte>, u: seq<byte>)
    requires IsMessage(lib, a) && IsMessage(lib, b) && s == a + t == b + u
    ensures a == b && t == u
  {
    assert LengthField(s) == LengthField(a) == LengthField(b);
    assert s[..|a|] == a && s[..|b|] == b;
  }

  lemma NotARest<M>(lib: Library<M>, raw: seq<byte>, t: seq<byte>)
    requires IsMessage(lib, raw)
    ensures !IsPartial(lib, raw + t) && !IsBroken(lib, raw + t)
  {
    var s := raw + t;
    assert LengthField(s) == |raw| && s[..|raw|] == raw;
  }

  /** A stream that is neither partial nor broken starts with a message. */
  lemma StartsWithMessage<M>(lib: Library<M>, s: seq<byte>)
    ensures !IsPartial(lib, s) && !IsBroken(lib, s) ==>
              HEADER <= |s| && HEADER <= LengthField(s) <= |s| && IsMessage(lib, s[..LengthField(s)])
    ensures !(IsPartial(lib, s) && IsBroken(lib, s))
  {
  }

  /** More bytes do not change what a stream starts with, once it starts with something. */
  lemma StartStays<M>(lib: Library<M>, a: seq<byte>, b: seq<byte>)
    ensures IsBroken(lib, a) ==> IsBroken(lib, a + b) && !IsPartial(lib, a + b)
    ensures !IsPartial(lib, a) && !IsBroken(lib, a) ==>
              !IsPartial(lib, a + b) && !IsBroken(lib, a + b) && |a| >= HEADER && LengthField(a + b) == LengthField(a)
  {
    if !IsPartial(lib, a) {
      var n := LengthField(a);
      assert LengthField(a + b) == n;
      assert n <= |a| ==> (a + b)[..n] == a[..n];
    }
  }

  // ------------------------------------------------------------------- the scan

  datatype Scanned<M> = Scanned(raws: seq<seq<byte>>, messages: seq<M>, rest: seq<byte>, alive: bool)

  function Scan<M>(lib: Library<M>, s: seq<byte>): Scanned<M> {
    if IsPartial(lib, s) then Scanned([], [], s, true)
    else if IsBroken(lib, s) then Scanned([], [], s, false)
    else
      var n := LengthField(s);
      var t := Scan(lib, s[n..]);
      t.(raws := [s[..n]] + t.raws, messages := [lib.parse(s[..n]).value] + t.messages)
  }

  /** One turn of the scan. */
  lemma ScanStep<M>(lib: Library<M>, s: seq<byte>)
    requires !IsPartial(lib, s) && !IsBroken(lib, s)
    ensures |s| >= HEADER && HEADER <= LengthField(s) <= |s|
    ensures var raw := s[..LengthField(s)]; var r, t := Scan(lib, s), Scan(lib, s[LengthField(s)..]);
            && IsMessage(lib, raw)
            && r == Scanned([raw] + t.raws, [lib.parse(raw).value] + t.messages, t.rest, t.alive)
  {
    StartsWithMessage(lib, s);
  }

  ghost predicate Parsed<M>(lib: Library<M>, raws: seq<seq<byte>>, messages: seq<M>) {
    |messages| == |raws| && forall i :: 0 <= i < |raws| ==> lib.parse(raws[i]) == Some(messages[i])
  }

  lemma ParsedCons<M>(lib: Library<M>, raw: seq<byte>, raws: seq<seq<byte>>, messages: seq<M>)
    requires IsMessage(lib, raw) && Parsed(lib, raws, messages)
    ensures Parsed(lib, [raw] + raws, [lib.parse(raw).value] + messages)
  {
  }

  lemma FramingCons<M>(lib: Library<M>, raw: seq<byte>, s: seq<byte>, raws: seq<seq<byte>>, rest: seq<byte>)
    requires IsMessage(lib, raw) && IsFraming(lib, s, raws, rest)
    ensures IsFraming(lib, raw + s, [raw] + raws, rest)
  {
    hide IsMessage, IsPartial, IsBroken;
    assert ([raw] + raws)[1..] == raws;
    assert Concat([raw] + raws) + rest == raw + (Concat(raws) + rest);
  }

  /** The scan finds the one framing there is, and says whether it ends in something broken. */
  lemma {:induction false} ScanIsFraming<M>(lib: Library<M>, s: seq<byte>)
    ensures var r := Scan(lib, s);
            IsFraming(lib, s, r.raws, r.rest) && Parsed(lib, r.raws, r.messages) &&
              (r.alive <==> IsPartial(lib, r.rest))
  {
    hide IsMessage, LengthField, IsFraming, Parsed, Scan;
    if IsPartial(lib, s) || IsBroken(lib, s) {
      ScanStops(lib, s);
    } else {
      ScanStep(lib, s);
      var n := LengthField(s);
      ScanIsFraming(lib, s[n..]);
      var t := Scan(lib, s[n..]);
      assert s == s[..n] + s[n..];
      FramingCons(lib, s[..n], s[n..], t.raws, t.rest);
      ParsedCons(lib, s[..n], t.raws, t.messages);
    }
  }

  lemma ScanStops<M>(lib: Library<M>, s: seq<byte>)
    requires IsPartial(lib, s) || IsBroken(lib, s)
    ensures Scan(lib, s) == Scanned([], [], s, IsPartial(lib, s)) && IsFraming(lib, s, [], s) && Parsed(lib, [], [])
  {
    hide IsMessage;
  }

  /** A stream of whole messages comes back message by message. */
  lemma RoundTrip<M>(lib: Library<M>, raws: seq<seq<byte>>)
    requires forall i :: 0 <= i < |raws| ==> IsMessage(lib, raws[i])
    ensures var r := Scan(lib, Concat(raws)); r.raws == raws && r.rest == [] && r.alive
  {
    ScanIsFraming(lib, Concat(raws));
    var r := Scan(lib, Concat(raws));
    FramingUnique(lib, Concat(raws), raws, [], r.raws, r.rest);
  }

  lemma {:induction false} ScanAppend<M>(lib: Library<M>, a: seq<byte>, b: seq<byte>)
    ensures var r, all := Scan(lib, a), Scan(lib, a + b);
            if !r.alive then all.messages == r.messages && !all.alive
            else var t := Scan(lib, r.rest + b);
              all.messages == r.messages + t.messages && all.alive == t.alive && all.rest == t.rest
  {
    hide IsMessage, IsPartial, IsBroken, LengthField, Scan;
    StartStays(lib, a, b);
    if IsPartial(lib, a) {
      ScanStops(lib, a);
    } else if IsBroken(lib, a) {
      ScanStops(lib, a);
      ScanStops(lib, a + b);
    } else {
      ScanStep(lib, a);
      ScanStep(lib, a + b);
      var s, n := a + b, LengthField(a);
      assert s[..n] == a[..n] && s[n..] == a[n..] + b;
      ScanAppend(lib, a[n..], b);
    }
  }

  // -------------------------------------------------------------- reads in turn

  /** A connection: what it has queued, what it holds back, and whether a read has raised. */
  datatype Connection<M> = Connection(queued: seq<M>, held: seq<byte>, alive: bool)

  /** A read. When it raises, the messages before stay queued and the buffer stays as it was;
      nothing is read from a dead connection. */
  function Read<M>(lib: Library<M>, c: Connection<M>, data: seq<byte>): Connection<M> {
    if !c.alive then c
    else
      var r := Scan(lib, c.held + data);
      Connection(c.queued + r.messages, if r.alive then r.rest else c.held, r.alive)
  }

  function ReadAll<M>(lib: Library<M>, chunks: seq<seq<byte>>): Connection<M> {
    if chunks == [] then Connection([], [], true)
    else Read(lib, ReadAll(lib, chunks[..|chunks| - 1]), chunks[|chunks| - 1])
  }

  /** However a stream is cut into reads, the outcome is that of one read of the whole. */
  lemma {:induction false} SplitIndependent<M>(lib: Library<M>, chunks: seq<seq<byte>>)
    ensures var c, r := ReadAll(lib, chunks), Scan(lib, Concat(chunks));
            c.queued == r.messages && c.alive == r.alive && (c.alive ==> c.held == r.rest)
  {
    if chunks != [] {
      var n := |chunks| - 1;
      SplitIndependent(lib, chunks[..n]);
      ConcatSnoc(chunks);
      ScanAppend(lib, Concat(chunks[..n]), chunks[n]);
    }
  }

  lemma {:induction false} ConcatSnoc<T>(parts: seq<seq<T>>)
    requires parts != []
    ensures Concat(parts) == Concat(parts[..|parts| - 1]) + parts[|parts| - 1]
  {
    var n := |parts| - 1;
    if n > 0 {
      ConcatSnoc(parts[1..]);
      assert parts[1..][..n - 1] == parts[..n][1..];
    } else {
      assert parts[1..] == [];
    }
  }

  // ------------------------------------------------------------------ the object

  /** The scan of `buf` has delivered `done` and is about to go on at `offset`. */
  ghost predicate At<M>(lib: Library<M>, buf: seq<byte>, offset: nat, done: seq<M>)
    requires offset <= |buf|
  {
    var r, t := Scan(lib, buf), Scan(lib, buf[offset..]);
    r.messages == done + t.messages && r.alive == t.alive && r.rest == t.rest
  }

  lemma AtNext<M>(lib: Library<M>, buf: seq<byte>, offset: nat, done: seq<M>, raw: seq<byte>, msg: M)
    requires offset <= |buf| && At(lib, buf, offset, done)
    requires HEADER <= |raw| && offset + |raw| <= |buf| && raw == buf[offset..offset + |raw|]
    requires LengthField(buf[offset..]) == |raw| && lib.known(buf[offset]) && lib.parse(raw) == Some(msg)
    ensures At(lib, buf, offset + |raw|, done + [msg])
  {
    hide Scan;
    var here := buf[offset..];
    assert here[..|raw|] == raw && here[|raw|..] == buf[offset + |raw|..];
    assert !IsPartial(lib, here) && !IsBroken(lib, here);
    ScanStep(lib, here);
  }

  lemma AtEnd<M>(lib: Library<M>, buf: seq<byte>, offset: nat, done: seq<M>)
    requires offset <= |buf| && At(lib, buf, offset, done)
    ensures var r := Scan(lib, buf); var here := buf[offset..];
            IsPartial(lib, here) || IsBroken(lib, here) ==>
              r.messages == done && r.rest == here && r.alive == IsPartial(lib, here)
  {
    hide Scan, IsPartial, IsBroken;
    if IsPartial(lib, buf[offset..]) || IsBroken(lib, buf[offset..]) {
      ScanStops(lib, buf[offset..]);
    }
  }

  class OpenFlowConnection<!M> {
    const lib: Library<M>
    var readBuffer: Option<seq<byte>>
    var queued: seq<M>

    constructor (lib: Library<M>)
      ensures this.lib == lib && readBuffer == None && queued == []
    {
      this.lib, readBuffer, queued := lib, None, [];
    }

    function Held(): seq<byte>
      reads this
    {
      if readBuffer.Some? then readBuffer.value else []
    }

    /** `dataReceived`; `ok` is false when it raises. */
    method DataReceived(data: seq<byte>) returns (ok: bool)
      requires data != []
      modifies this
      ensures Connection(queued, Held(), ok) == Read(lib, Connection(old(queued), old(Held()), true), data)
      ensures readBuffer != Some([]) || readBuffer == old(readBuffer)
    {
      hide Scan, At, LengthField;
      var buf := if readBuffer.Some? && readBuffer.value != [] then readBuffer.value + data else data;
      assert buf == Held() + data;
      var offset := 0;
      ghost var done := [];
      StartAt(lib, buf);
      while offset < |buf|
        invariant 0 <= offset <= |buf| && readBuffer == old(readBuffer)
        invariant At(lib, buf, offset, done) && queued == old(queued) + done
      {
        ghost var here := buf[offset..];
        if offset + HEADER > |buf| {
          assert IsPartial(lib, here);
          break;
        }
        var version, len := buf[offset], LengthField(buf[offset..]);
        if !lib.known(version) {
          assert IsBroken(lib, here);
          AtEnd(lib, buf, offset, done);
          return false;
        }
        if offset + len > |buf| {
          assert IsPartial(lib, here);
          break;
        }
        var raw := buf[offset..offset + len];
        assert raw == here[..len];
        var msg := if len < HEADER then None else lib.parse(raw);
        if msg.None? {
          assert IsBroken(lib, here);
          AtEnd(lib, buf, offset, done);
          return false;
        }
        AtNext(lib, buf, offset, done, raw, msg.value);
        offset := offset + len;
        queued := queued + [msg.value];
        done := done + [msg.value];
      }
      AtEnd(lib, buf, offset, done);
      if offset == |buf| {
        readBuffer := None;
      } else {
        readBuffer := Some(buf[offset..]);
      }
      ok := true;
    }
  }

  lemma StartAt<M>(lib: Library<M>, buf: seq<byte>)
    ensures At(lib, buf, 0, [])
  {
    assert buf[0..] == buf;
  }
}
