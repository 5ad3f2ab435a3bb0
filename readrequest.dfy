/** The pure parts of `read` in elisa_viihde_fuse.py: the validity window of
    the stream-URI cache, the `Range` header of the ranged GET and the
    `response.read(size)` bound on what is returned. */
module ReadRequest {
  import opened Types
  import opened Decimal

  /** CACHE_INVALIDATE_TIME, `timedelta(0, 3600)`, in seconds. */
  const CacheInvalidateTime := 3600

  /** The condition of the first branch of `read`: `fh` has a cached URI and
      less than an hour has passed since its time stamp. A clock that went
      backwards (a negative difference) also counts as fresh, as the
      `timedelta` comparison does. */
  predicate CacheHit(cache: map<int, StreamUriCache>, fh: int, now: int) {
    fh in cache && now - cache[fh].time < CacheInvalidateTime
  }

  /** `'bytes={}-{}'.format(offset, offset + size)`. */
  function RangeHeader(offset: nat, size: nat): (h: string)
  {
    "bytes=" + ToDecimal(offset) + "-" + ToDecimal(offset + size)
  }

  /** Position of the first `c` in `s`. */
  function FirstIndexOf(s: string, c: char): (r: Option<nat>)
    ensures r.None? <==> c !in s
    ensures r.Some? ==> r.value < |s| && s[r.value] == c && c !in s[..r.value]
    decreases |s|
  {
    if |s| == 0 then None
    else if s[0] == c then Some(0)
    else match FirstIndexOf(s[1..], c)
      case None => None
      case Some(i) =>
        assert s[..i + 1] == [s[0]] + s[1..][..i];
        Some(i + 1)
  }

  /** An independent reading of a `Range: bytes=<first>-<last>` header, as
      a server would take it: both bounds decimal, both present. */
  function ParseRange(h: string): (r: Option<(nat, nat)>)
  {
    if |h| < 6 || h[..6] != "bytes=" then None
    else
      var rest := h[6..];
      match FirstIndexOf(rest, '-')
      case None => None
      case Some(i) =>
        var first, last := rest[..i], rest[i + 1..];
        if |first| == 0 || |last| == 0 || !AllDigits(first) || !AllDigits(last) then None
        else Some((Value(first), Value(last)))
  }

  lemma DigitsHaveNoDash(s: string)
    requires AllDigits(s)
    ensures '-' !in s
  {
    forall i | 0 <= i < |s| ensures s[i] != '-' {
      assert IsDigit(s[i]);
    }
  }

  /** The header `read` sends asks for the byte range from `offset` to
      `offset + size`, both ends included. */
  lemma RangeHeaderParses(offset: nat, size: nat)
    ensures ParseRange(RangeHeader(offset, size)) == Some((offset, offset + size))
  {
    var a, b := ToDecimal(offset), ToDecimal(offset + size);
    var h := RangeHeader(offset, size);
    assert h[..6] == "bytes=";
    var rest := h[6..];
    assert rest == a + "-" + b;
    DigitsHaveNoDash(a);
    assert rest[|a|] == '-';
    assert rest[..|a|] == a;
    assert rest[|a| + 1..] == b;
    FirstIndexOfAt(rest, '-', |a|);
  }

  /** The search stops at the first occurrence. */
  lemma {:induction false} FirstIndexOfAt(s: string, c: char, k: nat)
    requires k < |s| && s[k] == c && c !in s[..k]
    ensures FirstIndexOf(s, c) == Some(k)
    decreases k
  {
    if k > 0 {
      assert s[0] in s[..k];
      assert s[1..][..k - 1] == s[1..k];
      assert forall x :: x in s[1..k] ==> x in s[..k];
      FirstIndexOfAt(s[1..], c, k - 1);
    }
  }

  /** Distinct reads send distinct headers. */
  lemma RangeHeaderInjective(o1: nat, s1: nat, o2: nat, s2: nat)
    requires RangeHeader(o1, s1) == RangeHeader(o2, s2)
    ensures o1 == o2 && s1 == s2
  {
    RangeHeaderParses(o1, s1);
    RangeHeaderParses(o2, s2);
  }

  /** The inclusive range always names one byte more than was asked for;
      the surplus is cut off by `ReadPrefix`. */
  lemma RangeSpansOneMore(offset: nat, size: nat)
    ensures var p := ParseRange(RangeHeader(offset, size));
            p.Some? && p.value.1 - p.value.0 + 1 == size + 1
  {
    RangeHeaderParses(offset, size);
  }

  /** `response.read(size)`: the first `size` bytes of the body, or all of
      it when it is shorter. */
  function ReadPrefix(body: seq<bv8>, size: nat): (r: seq<bv8>)
    ensures |r| <= size
    ensures r <= body
    ensures |r| == size || r == body
  {
    if |body| <= size then body else body[..size]
  }
}
