/** pkg/util: separating the header of a datagram from its body. */
module Util {
  import opened Common

  const NEWLINE: byte := 10

  /** Where the header ends: the first separator, or the end of the text when there is none. */
  function HeaderEnd(text: Bytes, sep: byte): (e: nat)
    ensures e <= |text|
    ensures sep !in text[..e]
    ensures e < |text| ==> text[e] == sep
  {
    if text == [] || text[0] == sep then 0
    else
      var e := 1 + HeaderEnd(text[1..], sep);
      assert text[..e] == [text[0]] + text[1..][..e - 1];
      e
  }

  function Header(text: Bytes, sep: byte): Bytes {
    text[..HeaderEnd(text, sep)]
  }

  /** The bytes after the first separator; nothing when there is no separator. */
  function Body(text: Bytes, sep: byte): Bytes {
    if HeaderEnd(text, sep) < |text| then text[HeaderEnd(text, sep) + 1..] else []
  }

  /** Splitting loses nothing, and undoes the prepending of a separator-free header. */
  lemma SplitRoundTrip(header: Bytes, sep: byte, body: Bytes)
    requires sep !in header
    ensures Header(header + [sep] + body, sep) == header
    ensures Body(header + [sep] + body, sep) == body
  {
    var text := header + [sep] + body;
    var e := HeaderEnd(text, sep);
    assert forall k :: 0 <= k < e ==> text[..e][k] == text[k];
    assert text[|header|] == sep;
    assert text[..e] == header[..e];
    assert text[|header| + 1..] == body;
  }

  lemma SplitReassembles(text: Bytes, sep: byte)
    ensures sep in text ==> Header(text, sep) + [sep] + Body(text, sep) == text
    ensures sep !in text ==> Header(text, sep) == text && Body(text, sep) == []
    ensures sep !in Header(text, sep)
  {
    var e := HeaderEnd(text, sep);
    if e == |text| {
      assert text[..e] == text;
    } else {
      assert text[e] == sep;
      assert text == text[..e] + [text[e]] + text[e + 1..];
    }
  }

  /**
   A Go slice of bytes: the part lo..hi of a backing store. Reslicing may reach past hi, up to
   the end of the store, which is what the separator comparison does near the end of a slice.
   */
  datatype Slice = Slice(store: array<byte>, lo: nat, hi: nat) {
    ghost predicate Valid() {
      lo <= hi <= store.Length
    }

    function Text(): Bytes
      requires Valid()
      reads store
    {
      store[lo..hi]
    }
  }

  /** The separator lies in the store at position p. */
  ghost predicate SeparatorAt(mem: Bytes, p: nat, sep: Bytes) {
    p + |sep| <= |mem| && mem[p..p + |sep|] == sep
  }

  /** The scan stops with a runtime panic at position p: it reslices past the store or past hi. */
  ghost predicate PanicAt(mem: Bytes, p: nat, hi: nat, sep: Bytes) {
    p + |sep| > |mem| || (SeparatorAt(mem, p, sep) && p + |sep| > hi)
  }

  /** Position p ends the scan, and no earlier one does. */
  ghost predicate ScanStopsAt(mem: Bytes, lo: nat, p: nat, hi: nat, sep: Bytes) {
    && lo <= p < hi
    && (SeparatorAt(mem, p, sep) || PanicAt(mem, p, hi, sep))
    && forall q :: lo <= q < p ==> !SeparatorAt(mem, q, sep) && !PanicAt(mem, q, hi, sep)
  }

  /** The scan of SplitHeaderBody ends in a runtime panic. */
  ghost predicate ScanPanics(mem: Bytes, lo: nat, hi: nat, sep: Bytes) {
    exists p :: ScanStopsAt(mem, lo, p, hi, sep) && PanicAt(mem, p, hi, sep)
  }

  /** Exactly the separators of at most one byte can be split on whatever lies behind the text. */
  lemma SeparatorsThatNeverPanic(sep: Bytes)
    ensures |sep| <= 1 <==> forall mem: Bytes, lo: nat, hi: nat | lo <= hi <= |mem| :: !ScanPanics(mem, lo, hi, sep)
  {
    if |sep| > 1 {
      var mem: Bytes := sep[..1];
      assert PanicAt(mem, 0, 1, sep);
      assert ScanStopsAt(mem, 0, 0, 1, sep);
      assert ScanPanics(mem, 0, 1, sep);
    }
  }

  lemma OneByteAt(mem: Bytes, p: nat, sep: byte)
    ensures SeparatorAt(mem, p, [sep]) <==> p < |mem| && mem[p] == sep
  {
    if p < |mem| {
      assert mem[p..p + 1] == [mem[p]];
    }
  }

  lemma OneByteStop(mem: Bytes, lo: nat, p: nat, hi: nat, sep: byte)
    requires hi <= |mem|
    ensures ScanStopsAt(mem, lo, p, hi, [sep]) <==> lo <= p < hi && mem[p] == sep && sep !in mem[lo..p]
    ensures ScanStopsAt(mem, lo, p, hi, [sep]) ==> !PanicAt(mem, p, hi, [sep])
  {
    forall q: nat | q < hi
      ensures SeparatorAt(mem, q, [sep]) <==> mem[q] == sep
    {
      OneByteAt(mem, q, sep);
    }
    if lo <= p < hi {
      assert forall q :: lo <= q < p ==> mem[q] == mem[lo..p][q - lo];
    }
  }

  /** With a one-byte separator the scan never panics and finds exactly Header and Body. */
  lemma OneByteScan(mem: Bytes, lo: nat, hi: nat, sep: byte)
    requires lo <= hi <= |mem|
    ensures !ScanPanics(mem, lo, hi, [sep])
    ensures forall p: nat :: ScanStopsAt(mem, lo, p, hi, [sep]) ==>
      mem[lo..p] == Header(mem[lo..hi], sep) && mem[p + 1..hi] == Body(mem[lo..hi], sep)
    ensures (forall p: nat :: !ScanStopsAt(mem, lo, p, hi, [sep])) ==>
      Header(mem[lo..hi], sep) == mem[lo..hi] && Body(mem[lo..hi], sep) == []
  {
    var text := mem[lo..hi];
    var e := HeaderEnd(text, sep);
    assert text[..e] == mem[lo..lo + e];
    forall p: nat | ScanStopsAt(mem, lo, p, hi, [sep])
      ensures p == lo + e && !PanicAt(mem, p, hi, [sep])
    {
      OneByteStop(mem, lo, p, hi, sep);
      assert text[p - lo] == mem[p] == sep;
      assert forall k :: 0 <= k < p - lo ==> mem[lo..p][k] == text[k];
    }
    if e < |text| {
      OneByteStop(mem, lo, lo + e, hi, sep);
      assert text[e + 1..] == mem[lo + e + 1..hi];
    }
  }

  /**
   The two parts stored in returnByte, unless the program panics. A nil argument is None or null
   and gives a nil result. The parts alias the store of buf; only returnByte changes.
   */
  method SplitHeaderBody(buf: Option<Slice>, sep: Option<Bytes>, returnByte: array?<Slice>)
    returns (panicked: bool, parts: array?<Slice>)
    requires buf.Some? ==> buf.value.Valid()
    modifies returnByte
    ensures buf.None? || sep.None? || returnByte == null ==> !panicked && parts == null
    ensures buf.Some? && sep.Some? && returnByte != null ==>
      var Slice(store, lo, hi) := buf.value;
      && (panicked <==> ScanPanics(store[..], lo, hi, sep.value))
      && (!panicked ==>
           && parts != null && parts.Length >= 2
           && (if returnByte.Length >= 2 then parts == returnByte else fresh(parts))
           && (forall p: nat :: ScanStopsAt(store[..], lo, p, hi, sep.value) ==>
                parts[0] == Slice(store, lo, p) && parts[1] == Slice(store, p + |sep.value|, hi))
           && ((forall p: nat :: !ScanStopsAt(store[..], lo, p, hi, sep.value)) ==>
                parts[0] == buf.value && parts[1].lo == parts[1].hi)
           && parts[0].Valid() && parts[1].Valid())
    ensures returnByte != null ==> forall k :: 2 <= k < returnByte.Length ==> returnByte[k] == old(returnByte[k])
  {
    panicked, parts := false, null;
    if buf.None? || sep.None? || returnByte == null {
      return;
    }
    var b, s := buf.value, sep.value;
    var nothing := new byte[0];
    var header, body := b, Slice(nothing, 0, 0);
    ghost var mem := b.store[..];
    var i := b.lo;
    while i < b.hi
      invariant b.lo <= i <= b.hi
      invariant header == b && body == Slice(nothing, 0, 0)
      invariant forall q :: b.lo <= q < i ==> !SeparatorAt(mem, q, s) && !PanicAt(mem, q, b.hi, s)
    {
      if i + |s| > b.store.Length {
        assert ScanStopsAt(mem, b.lo, i, b.hi, s);
        return true, null;
      }
      assert mem[i..i + |s|] == b.store[i..i + |s|];
      if b.store[i..i + |s|] == s {
        assert ScanStopsAt(mem, b.lo, i, b.hi, s);
        if i + |s| > b.hi {
          return true, null;
        }
        header, body := Slice(b.store, b.lo, i), Slice(b.store, i + |s|, b.hi);
        assert forall p: nat :: ScanStopsAt(mem, b.lo, p, b.hi, s) ==> p == i;
        break;
      }
      i := i + 1;
    }
    parts := returnByte;
    if returnByte.Length < 2 {
      parts := new Slice[2](_ => header);
    }
    parts[0], parts[1] := header, body;
  }

  /** What SplitHeaderBody does with a one-byte separator: it stores the header and the body. */
  method SplitAtByte(buf: Slice, sep: byte, returnByte: array<Slice>) returns (header: Slice, body: Slice)
    requires buf.Valid()
    modifies returnByte
    ensures header.Valid() && header.Text() == Header(buf.Text(), sep) && header.store == buf.store
    ensures body.Valid() && body.Text() == Body(buf.Text(), sep)
    ensures body.lo < body.hi ==> body == Slice(buf.store, buf.lo + HeaderEnd(buf.Text(), sep) + 1, buf.hi)
  {
    ghost var mem := buf.store[..];
    OneByteScan(mem, buf.lo, buf.hi, sep);
    assert mem[buf.lo..buf.hi] == buf.Text();
    var panicked, slices := SplitHeaderBody(Some(buf), Some([sep]), returnByte);
    header, body := slices[0], slices[1];
    if body.lo < body.hi {
      assert |Body(buf.Text(), sep)| == body.hi - body.lo;
    }
  }
}
