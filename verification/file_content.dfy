/**
 * Byte ranges over loaded files (backend/src/api/file_content.rs), against sections 14.1.2, 14.4 and 15.5.17
 * of RFC 9110. Header text is visible ASCII.
 */
module FileContent {
  import opened Wrappers
  import opened Text

  const U64_LIMIT := 0x1_0000_0000_0000_0000

  // ---- Parsing ---------------------------------------------------------------

  predicate AllDigits(s: string) {
    forall i :: 0 <= i < |s| ==> IsDigit(s[i])
  }

  /** `str::parse::<u64>`: an optional plus sign, at least one digit, no overflow. */
  function ParseU64(s: string): Option<nat> {
    var digits := if s != "" && s[0] == '+' then s[1..] else s;
    if digits != "" && AllDigits(digits) && DecimalValue(digits) < U64_LIMIT
    then Some(DecimalValue(digits)) else None
  }

  /** No range asked for, a range that cannot be satisfied, or the bytes `start..=end`. */
  datatype Range = NoRange | Unsatisfiable | Bytes(start: nat, end: nat)

  /** `parse_range` */
  function ParseRange(header: Option<string>, size: nat): Range {
    if header.None? || !("bytes=" <= header.value) then NoRange
    else
      var spec := header.value[6..];
      if ',' in spec then Unsatisfiable
      else
        var dash := IndexOf(spec, '-');
        if dash == |spec| then NoRange
        else if size == 0 then Unsatisfiable
        else ParseBounds(Trim(spec[..dash]), Trim(spec[dash + 1..]), size)
  }

  function ParseBounds(start: string, end: string, size: nat): Range
    requires size > 0
  {
    if start == "" && end == "" then Unsatisfiable
    else if start == "" then
      var n := ParseU64(end);
      if n.None? then NoRange
      else if n.value == 0 then Unsatisfiable
      else Bytes(if n.value <= size then size - n.value else 0, size - 1)
    else if end == "" then
      var s := ParseU64(start);
      if s.None? then NoRange
      else if s.value > size - 1 then Unsatisfiable
      else Bytes(s.value, size - 1)
    else
      var s, e := ParseU64(start), ParseU64(end);
      if s.None? || e.None? then NoRange
      else if s.value > e.value || s.value > size - 1 then Unsatisfiable
      else Bytes(s.value, if e.value <= size - 1 then e.value else size - 1)
  }

  /** Whatever the header, an accepted range lies inside the file. */
  lemma AcceptedRangeIsInside(header: Option<string>, size: nat)
    ensures var r := ParseRange(header, size); r.Bytes? ==> r.start <= r.end < size
  {
  }

  // ---- Serving ---------------------------------------------------------------

  type Byte = bv8

  datatype Response =
    | Whole(body: seq<Byte>)                                        // 200
    | Partial(body: seq<Byte>, start: nat, end: nat, size: nat)     // 206 with Content-Range
    | NotSatisfiable(size: nat)                                     // 416

  /** `serve_loaded_bytes` */
  function Serve(body: seq<Byte>, header: Option<string>): Response {
    match ParseRange(header, |body|)
    case NoRange => Whole(body)
    case Unsatisfiable => NotSatisfiable(|body|)
    case Bytes(start, end) =>
      AcceptedRangeIsInside(header, |body|);
      Partial(body[start..end + 1], start, end, |body|)
  }

  // ---- What the RFC asks for -------------------------------------------------

  /** `1*DIGIT`: any number of leading zeros, any size. */
  type Digits = s: string | s != "" && AllDigits(s) witness "0"

  /** `range-spec` of section 14.1.1: `first-pos "-" [last-pos]` or `"-" suffix-length`. */
  datatype RangeSpec = From(first: Digits) | FromTo(first: Digits, last: Digits) | Suffix(length: Digits)

  function Before(r: RangeSpec): string {
    if r.Suffix? then "" else r.first
  }

  function Behind(r: RangeSpec): string {
    match r
    case From(_) => ""
    case FromTo(_, last) => last
    case Suffix(length) => length
  }

  function HeaderOf(r: RangeSpec): string {
    "bytes=" + (Before(r) + "-" + Behind(r))
  }

  /** Does the range select position `i` of a body of `size` bytes? */
  predicate Selects(r: RangeSpec, size: nat, i: int) {
    0 <= i < size &&
    match r
    case From(first) => DecimalValue(first) <= i
    case FromTo(first, last) => DecimalValue(first) <= i <= DecimalValue(last)
    case Suffix(length) => size <= i + DecimalValue(length)
  }

  predicate Fits(r: RangeSpec) {
    match r
    case From(first) => DecimalValue(first) < U64_LIMIT
    case FromTo(first, last) => DecimalValue(first) < U64_LIMIT && DecimalValue(last) < U64_LIMIT
    case Suffix(length) => DecimalValue(length) < U64_LIMIT
  }

  lemma {:induction false} TrimDigits(s: string)
    requires AllDigits(s)
    ensures Trim(s) == s
  {
    assert s != "" ==> IsDigit(s[0]) && IsDigit(s[|s| - 1]);
  }

  lemma ParseDigits(s: Digits)
    ensures ParseU64(s) == if DecimalValue(s) < U64_LIMIT then Some(DecimalValue(s)) else None
  {
    assert IsDigit(s[0]);
  }

  /** The parser splits a written range back into its two numbers. */
  lemma HeaderParses(r: RangeSpec, size: nat)
    ensures ParseRange(Some(HeaderOf(r)), size) == if size == 0 then Unsatisfiable else ParseBounds(Before(r), Behind(r), size)
  {
    hide Trim, ParseBounds;
    var left, right := Before(r), Behind(r);
    assert AllDigits(left) && AllDigits(right);
    var spec := left + "-" + right;
    var header := "bytes=" + spec;
    assert "bytes=" <= header && header[6..] == spec;
    NoSeparators(left);
    NoSeparators(right);
    IndexOfCut(left, right, '-');
    assert spec[..|left|] == left && spec[|left| + 1..] == right;
    TrimDigits(left);
    TrimDigits(right);
  }

  lemma NoSeparators(s: string)
    requires AllDigits(s)
    ensures ',' !in s && '-' !in s
  {
    forall i | 0 <= i < |s| ensures s[i] != ',' && s[i] != '-' {
      assert IsDigit(s[i]);
    }
  }

  /** What the bounds parse to, in terms of the numbers written. */
  ghost predicate RangeSelects(range: Range, r: RangeSpec, size: nat) {
    || (range == Unsatisfiable && forall i :: !Selects(r, size, i))
    || (range.Bytes? && range.start <= range.end < size
        && forall i :: Selects(r, size, i) <==> range.start <= i <= range.end)
  }

  /** A written range whose numbers fit 64 bits is answered as the RFC says: 206 with exactly the selected bytes
      when there are any, 416 otherwise. */
  lemma ServesSelectedBytes(body: seq<Byte>, r: RangeSpec)
    requires Fits(r)
    ensures var reply := Serve(body, Some(HeaderOf(r)));
      || (reply == NotSatisfiable(|body|) && forall i :: !Selects(r, |body|, i))
      || (&& reply.Partial? && reply.start <= reply.end < |body| == reply.size
          && reply.body == body[reply.start..reply.end + 1]
          && forall i :: Selects(r, |body|, i) <==> reply.start <= i <= reply.end)
  {
    ParsesToSelected(r, |body|);
    hide HeaderOf, ParseRange, Serve, Selects, Fits;
    ServesRange(body, Some(HeaderOf(r)));
  }

  lemma ServesRange(body: seq<Byte>, header: Option<string>)
    ensures var range, reply := ParseRange(header, |body|), Serve(body, header);
      match range
      case NoRange => reply == Whole(body)
      case Unsatisfiable => reply == NotSatisfiable(|body|)
      case Bytes(start, end) => start <= end < |body| && reply == Partial(body[start..end + 1], start, end, |body|)
  {
    AcceptedRangeIsInside(header, |body|);
    hide ParseRange;
  }

  lemma ParsesToSelected(r: RangeSpec, size: nat)
    requires Fits(r)
    ensures RangeSelects(ParseRange(Some(HeaderOf(r)), size), r, size)
  {
    HeaderParses(r, size);
    if size > 0 {
      BoundsSelect(r, size);
    }
    hide HeaderOf, ParseRange, ParseBounds;
  }

  lemma BoundsSelect(r: RangeSpec, size: nat)
    requires Fits(r) && size > 0
    ensures RangeSelects(ParseBounds(Before(r), Behind(r), size), r, size)
  {
    NumbersParse(r);
    hide ParseU64, DecimalValue;
  }

  lemma NumbersParse(r: RangeSpec)
    ensures match r
      case From(first) => ParseU64(first) == if DecimalValue(first) < U64_LIMIT then Some(DecimalValue(first)) else None
      case FromTo(first, last) =>
        && (ParseU64(first) == if DecimalValue(first) < U64_LIMIT then Some(DecimalValue(first)) else None)
        && (ParseU64(last) == if DecimalValue(last) < U64_LIMIT then Some(DecimalValue(last)) else None)
      case Suffix(length) => ParseU64(length) == if DecimalValue(length) < U64_LIMIT then Some(DecimalValue(length)) else None
  {
    match r {
      case From(first) => ParseDigits(first);
      case FromTo(first, last) => ParseDigits(first); ParseDigits(last);
      case Suffix(length) => ParseDigits(length);
    }
  }

  /** A range is honoured exactly when its numbers fit 64 bits; otherwise the whole file is served, even where the
      RFC would have the last position cut off at the end of the file. */
  lemma HonouredIffFits(body: seq<Byte>, r: RangeSpec)
    requires body != []
    ensures Serve(body, Some(HeaderOf(r))) == Whole(body) <==> !Fits(r)
  {
    HeaderParses(r, |body|);
    BoundsIgnoredIff(r, |body|);
    hide HeaderOf, ParseRange, ParseBounds, Fits;
  }

  lemma BoundsIgnoredIff(r: RangeSpec, size: nat)
    requires size > 0
    ensures ParseBounds(Before(r), Behind(r), size) == NoRange <==> !Fits(r)
  {
    NumbersParse(r);
    hide ParseU64, DecimalValue;
  }

  /** An instance for every position from 2^64 on: a range up to it selects every byte of any file that size allows, and
      is ignored. */
  lemma PastU64IsIgnored(body: seq<Byte>, first: Digits, last: nat)
    requires DecimalValue(first) == 0 && last >= U64_LIMIT && 0 < |body| <= last
    ensures var r := FromTo(first, Decimal(last));
      (forall i :: Selects(r, |body|, i) <==> 0 <= i < |body|) && Serve(body, Some(HeaderOf(r))) == Whole(body)
  {
    DecimalRoundTrip(last);
    hide Decimal, DecimalValue, Serve, HeaderOf;
    HonouredIffFits(body, FromTo(first, Decimal(last)));
  }

  /** Several ranges are refused together, whatever they select: even two that could both be satisfied. */
  lemma SeveralRangesRefused(body: seq<Byte>, r: RangeSpec, more: string)
    ensures Serve(body, Some(HeaderOf(r) + "," + more)) == NotSatisfiable(|body|)
  {
    var header := HeaderOf(r) + "," + more;
    assert HeaderOf(r)[..6] == "bytes=" && header[..6] == "bytes=";
    assert "bytes=" <= header;
    assert header[|HeaderOf(r)|] == ',' && header[6..][|HeaderOf(r)| - 6] == ',';
  }

  /** Without a `Range` header, in another unit, or without a dash there is no range to serve. */
  lemma NoRangeServedWhole(body: seq<Byte>, header: Option<string>)
    requires header.None? || (|header.value| >= 6 ==> header.value[..6] != "bytes=" || ({',', '-'} !! set c | c in header.value))
    ensures Serve(body, header) == Whole(body)
  {
    if header.Some? && "bytes=" <= header.value {
      assert header.value[..6] == "bytes=";
      var spec := header.value[6..];
      assert forall c :: c in spec ==> c in header.value;
      assert '-' !in spec && ',' !in spec;
    }
  }

  // ---- Fetching a file piece by piece ----------------------------------------

  /** One request of a client that reads `k` bytes from `at`. */
  function RequestAt(body: seq<Byte>, k: nat, at: nat): Response
    requires k > 0
  {
    Serve(body, Some(HeaderOf(FromTo(Decimal(at), Decimal(at + k - 1)))))
  }

  lemma RequestAdvances(body: seq<Byte>, k: nat, at: nat)
    requires k > 0 && at <= |body| && |body| + k <= U64_LIMIT
    ensures var reply := RequestAt(body, k, at);
      if at == |body| then reply == NotSatisfiable(|body|)
      else
        && reply.Partial? && reply.start == at && reply.body != [] && at + |reply.body| <= |body|
        && reply.body == body[at..at + |reply.body|]
  {
    var r := FromTo(Decimal(at), Decimal(at + k - 1));
    RequestSelects(body, k, at);
    ServesSelectedBytes(body, r);
    hide Serve, HeaderOf, Decimal, DecimalValue, Selects, Fits;
    var reply := RequestAt(body, k, at);
    assert at < |body| ==> Selects(r, |body|, at);
    assert reply.Partial? ==> Selects(r, |body|, reply.start);
  }

  lemma RequestSelects(body: seq<Byte>, k: nat, at: nat)
    requires k > 0 && at <= |body| && |body| + k <= U64_LIMIT
    ensures var r := FromTo(Decimal(at), Decimal(at + k - 1));
      Fits(r) && forall i :: Selects(r, |body|, i) <==> 0 <= i < |body| && at <= i < at + k
  {
    DecimalRoundTrip(at);
    DecimalRoundTrip(at + k - 1);
    hide Decimal, DecimalValue;
  }

  /** What the client assembles by asking for consecutive `k`-byte ranges until the answer is not a 206. */
  function FetchFrom(body: seq<Byte>, k: nat, at: nat): seq<Byte>
    requires k > 0 && at <= |body| && |body| + k <= U64_LIMIT
    decreases |body| - at
  {
    RequestAdvances(body, k, at);
    match RequestAt(body, k, at)
    case Partial(piece, _, _, _) => piece + FetchFrom(body, k, at + |piece|)
    case _ => []
  }

  lemma FetchStep(body: seq<Byte>, k: nat, at: nat) returns (next: nat)
    requires k > 0 && at <= |body| && |body| + k <= U64_LIMIT
    ensures at == |body| ==> FetchFrom(body, k, at) == []
    ensures at < |body| ==> at < next <= |body| && FetchFrom(body, k, at) == body[at..next] + FetchFrom(body, k, next)
  {
    RequestAdvances(body, k, at);
    var reply := RequestAt(body, k, at);
    hide RequestAt;
    next := if at < |body| then at + |reply.body| else at;
    assert at < |body| ==> reply.body == body[at..next];
  }

  /** Fetching piece by piece ends with a 416 and reassembles the file. */
  lemma {:induction false} FetchReassembles(body: seq<Byte>, k: nat, at: nat)
    requires k > 0 && at <= |body| && |body| + k <= U64_LIMIT
    ensures FetchFrom(body, k, at) == body[at..]
    ensures RequestAt(body, k, |body|) == NotSatisfiable(|body|)
    decreases |body| - at
  {
    hide FetchFrom, RequestAt;
    RequestAdvances(body, k, |body|);
    var next := FetchStep(body, k, at);
    if at < |body| {
      FetchReassembles(body, k, next);
      assert body[at..] == body[at..next] + body[next..];
    }
  }
}
