/**
 Serving one HTTP byte range: from a single ranged read when the header names both ends, otherwise by
 slicing the whole file. Both give the same response; how that relates to RFC 7233 is stated exactly.
 */
module RangeServing {
  import opened Lru

  type Byte = bv8

  datatype ContentRange = Span(start: nat, end: int, total: nat) | Unsatisfied(total: nat)

  datatype Response = Response(status: nat, contentLength: Option<nat>, contentRange: Option<ContentRange>, body: seq<Byte>)

  // ---------------------------------------------------------------- numbers

  /** `parseInt` and double arithmetic on non-negative integers; None is Infinity. */
  datatype Doubles = Doubles(of: nat -> Option<nat>)

  const MAX_SAFE: nat := 0x20_0000_0000_0000

  ghost predicate Rounding(d: Doubles) {
    && (forall n: nat | n <= MAX_SAFE :: d.of(n) == Some(n))
    && (forall m: nat, n: nat | m <= n && d.of(n).Some? :: d.of(m).Some? && d.of(m).value <= d.of(n).value)
    && (forall n: nat | d.of(n).Some? :: Exact(d, d.of(n).value))
    && (forall n: nat :: StaysFinite(d, n))
  }

  /** Adding one to a finite double does not overflow. */
  predicate StaysFinite(d: Doubles, n: nat) {
    d.of(n).Some? ==> d.of(d.of(n).value + 1).Some?
  }

  /** `n` is itself a double. */
  predicate Exact(d: Doubles, n: nat) {
    d.of(n) == Some(n)
  }

  predicate AllDigits(s: string) {
    forall i | 0 <= i < |s| :: '0' <= s[i] <= '9'
  }

  function Decimal(s: string): nat
    requires AllDigits(s)
  {
    if s == "" then 0 else 10 * Decimal(s[..|s| - 1]) + (s[|s| - 1] as nat - '0' as nat)
  }

  // ---------------------------------------------------------------- the header

  const RANGE_PREFIX := "bytes="

  /** What `trim` removes. */
  predicate IsSpace(c: char) {
    var u := c as int;
    9 <= u <= 13 || u == 0x20 || u == 0xA0 || u == 0x1680 || 0x2000 <= u <= 0x200A
    || u == 0x2028 || u == 0x2029 || u == 0x202F || u == 0x205F || u == 0x3000 || u == 0xFEFF
  }

  predicate AllSpace(s: string) {
    forall c | c in s :: IsSpace(c)
  }

  function Trim(s: string): string {
    if s == "" then ""
    else if IsSpace(s[0]) then Trim(s[1..])
    else if IsSpace(s[|s| - 1]) then Trim(s[..|s| - 1])
    else s
  }

  /** The two digit strings of `^bytes=(\d*)-(\d*)$`. */
  function MatchRange(text: string): Option<(string, string)> {
    if !(RANGE_PREFIX <= text) then None
    else
      var rest := text[|RANGE_PREFIX|..];
      var i := DigitsEnd(rest);
      if i < |rest| && rest[i] == '-' && AllDigits(rest[i + 1..]) then Some((rest[..i], rest[i + 1..])) else None
  }

  function DigitsEnd(s: string): (i: nat)
    ensures i <= |s| && AllDigits(s[..i]) && (i < |s| ==> !('0' <= s[i] <= '9'))
  {
    if s == "" || !('0' <= s[0] <= '9') then 0
    else
      var n := DigitsEnd(s[1..]);
      assert forall i | 0 < i < n + 1 :: s[i] == s[1..][..n][i - 1];
      n + 1
  }

  datatype Parsed = Invalid | Range(start: nat, end: nat)

  function Min(a: nat, b: nat): nat { if a <= b then a else b }

  function ParseRangeHeader(d: Doubles, header: string, total: nat): Parsed {
    if total == 0 then Invalid
    else
      match MatchRange(Trim(header))
      case None => Invalid
      case Some((a, b)) =>
        if !AllDigits(a) || !AllDigits(b) || (a == "" && b == "") then Invalid
        else if a == "" then
          match d.of(Decimal(b))
          case None => Invalid
          case Some(n) => if n == 0 then Invalid else Range(if n < total then total - n else 0, total - 1)
        else
          Clamped(d.of(Decimal(a)), if b == "" then Some(total - 1) else d.of(Decimal(b)), total)
  }

  function Clamped(start: Option<nat>, end: Option<nat>, total: nat): Parsed
    requires total > 0
  {
    if start.None? || end.None? || start.value >= total || end.value < start.value then Invalid
    else Range(start.value, Min(end.value, total - 1))
  }

  /** Start and length of `bytes=N-M`, without knowing the total. */
  function ParseExplicitByteRange(d: Doubles, header: string): Option<(nat, nat)>
    requires Rounding(d)
  {
    match MatchRange(Trim(header))
    case None => None
    case Some((a, b)) =>
      if !AllDigits(a) || !AllDigits(b) || a == "" || b == "" then None
      else
        match (d.of(Decimal(a)), d.of(Decimal(b)))
        case (Some(start), Some(end)) => if end < start then None else Some((start, RangeLength(d, start, end)))
        case _ => None
  }

  /** `end - start + 1`, each operation rounding. */
  function RangeLength(d: Doubles, start: nat, end: nat): (length: nat)
    requires Rounding(d) && start <= end && d.of(end) == Some(end)
    ensures length > 0
  {
    assert d.of(1) == Some(1) && StaysFinite(d, end - start);
    assert end - start <= end;
    d.of(d.of(end - start).value + 1).value
  }

  // ---------------------------------------------------------------- the two paths

  function Body(head: bool, bytes: seq<Byte>): seq<Byte> {
    if head then [] else bytes
  }

  function Partial(head: bool, start: nat, bytes: seq<Byte>, total: nat): Response {
    Response(206, Some(|bytes|), Some(Span(start, start + |bytes| - 1, total)), Body(head, bytes))
  }

  function NotSatisfiable(total: nat): Response {
    Response(416, None, Some(Unsatisfied(total)), [])
  }

  function FullResponse(d: Doubles, range: Option<string>, head: bool, bytes: seq<Byte>): Response {
    if range.None? || range.value == "" then Response(200, Some(|bytes|), None, Body(head, bytes))
    else Answer(ParseRangeHeader(d, range.value, |bytes|), head, bytes)
  }

  function Answer(parsed: Parsed, head: bool, bytes: seq<Byte>): Response {
    match parsed
    case Invalid => NotSatisfiable(|bytes|)
    case Range(start, end) =>
      var slice := if start <= end < |bytes| then bytes[start..end + 1] else [];
      Response(206, Some(if start <= end then end - start + 1 else 0), Some(Span(start, end, |bytes|)), Body(head, slice))
  }

  /** The daemon's partial read: clamped at the end of the file. */
  function Slice(bytes: seq<Byte>, start: nat, length: nat): seq<Byte> {
    if start >= |bytes| then [] else bytes[start..Min(start + length, |bytes|)]
  }

  function FastResponse(start: nat, head: bool, fetched: seq<Byte>, total: nat): Response {
    if start >= total then NotSatisfiable(total) else Partial(head, start, fetched, total)
  }

  lemma LengthReachesEnd(d: Doubles, start: nat, end: nat, total: nat)
    requires Rounding(d) && start <= end && d.of(end) == Some(end) && start < total <= MAX_SAFE
    ensures start + Min(RangeLength(d, start, end), total - start) == Min(end + 1, total)
  {
    if end < MAX_SAFE {
      assert d.of(end - start) == Some(end - start);
      assert d.of(end - start + 1) == Some(end - start + 1);
    } else {
      var lower := total - 1 - start;
      assert d.of(lower) == Some(lower) && d.of(lower + 1) == Some(lower + 1);
      assert d.of(end - start).value >= lower;
      assert StaysFinite(d, end - start);
    }
  }

  /** What the full path makes of a header the fast path takes. */
  lemma ExplicitRange(d: Doubles, header: string, total: nat)
    requires Rounding(d) && total <= MAX_SAFE && ParseExplicitByteRange(d, header).Some?
    ensures var (start, length) := ParseExplicitByteRange(d, header).value;
            ParseRangeHeader(d, header, total)
            == if start >= total then Invalid else Range(start, Min(start + length, total) - 1)
  {
    var (start, length) := ParseExplicitByteRange(d, header).value;
    var (a, b) := MatchRange(Trim(header)).value;
    var end := d.of(Decimal(b)).value;
    assert d.of(Decimal(a)) == Some(start) && length == RangeLength(d, start, end);
    if start < total {
      LengthReachesEnd(d, start, end, total);
    }
  }

  /** For every header the fast path takes, one ranged read gives what slicing the whole file gives. */
  lemma FastEqualsFull(d: Doubles, header: string, head: bool, bytes: seq<Byte>)
    requires Rounding(d) && |bytes| <= MAX_SAFE && ParseExplicitByteRange(d, header).Some?
    ensures var (start, length) := ParseExplicitByteRange(d, header).value;
            FastResponse(start, head, Slice(bytes, start, length), |bytes|) == FullResponse(d, Some(header), head, bytes)
  {
    EmptyHeader();
    var (start, length) := ParseExplicitByteRange(d, header).value;
    ExplicitRange(d, header, |bytes|);
    FastFollows(d, header, start, length, head, bytes);
  }

  lemma FastFollows(d: Doubles, header: string, start: nat, length: nat, head: bool, bytes: seq<Byte>)
    requires header != "" && length > 0
    requires ParseRangeHeader(d, header, |bytes|)
             == if start >= |bytes| then Invalid else Range(start, Min(start + length, |bytes|) - 1)
    ensures FastResponse(start, head, Slice(bytes, start, length), |bytes|) == FullResponse(d, Some(header), head, bytes)
  {
    FastAnswers(start, length, head, bytes);
  }

  lemma EmptyHeader()
    ensures MatchRange(Trim("")) == None
  {
  }

  lemma FastAnswers(start: nat, length: nat, head: bool, bytes: seq<Byte>)
    requires length > 0
    ensures FastResponse(start, head, Slice(bytes, start, length), |bytes|)
            == Answer(if start >= |bytes| then Invalid else Range(start, Min(start + length, |bytes|) - 1), head, bytes)
  {
  }

  // ---------------------------------------------------------------- RFC 7233

  /** A single byte-range-spec of section 2.1. */
  datatype RangeSpec = FromTo(first: nat, last: nat) | From(first: nat) | Suffix(n: nat)

  /** The positions a spec asks for, among those a file of `total` bytes has. */
  predicate Asks(spec: RangeSpec, total: nat, i: nat) {
    i < total &&
    match spec
    case FromTo(first, last) => first <= i <= last
    case From(first) => first <= i
    case Suffix(n) => total - n <= i
  }

  /** Section 2.1 calls a spec with last before first invalid. */
  predicate ValidSpec(spec: RangeSpec) {
    spec.FromTo? ==> spec.first <= spec.last
  }

  /** Section 2.1: the first position exists, or the suffix has a length. */
  predicate Satisfiable(spec: RangeSpec, total: nat) {
    match spec
    case FromTo(first, _) => first < total
    case From(first) => first < total
    case Suffix(n) => n > 0
  }

  function SpecOf(a: string, b: string): Option<RangeSpec> {
    if !AllDigits(a) || !AllDigits(b) || (a == "" && b == "") then None
    else if a == "" then Some(Suffix(Decimal(b)))
    else if b == "" then Some(From(Decimal(a)))
    else Some(FromTo(Decimal(a), Decimal(b)))
  }

  function HeaderSpec(header: string): Option<RangeSpec> {
    match MatchRange(Trim(header))
    case None => None
    case Some((a, b)) => SpecOf(a, b)
  }

  /** The grammar, written out: space, `bytes=`, digits, a dash, digits, space. */
  ghost predicate Spells(header: string, pre: string, a: string, b: string, post: string) {
    AllSpace(pre) && AllSpace(post) && AllDigits(a) && AllDigits(b) && header == pre + RANGE_PREFIX + a + "-" + b + post
  }

  lemma {:induction false} TrimmedPart(s: string) returns (pre: string, post: string)
    ensures AllSpace(pre) && AllSpace(post) && s == pre + Trim(s) + post
    decreases |s|
  {
    if s == "" {
      pre, post := "", "";
    } else if IsSpace(s[0]) {
      pre, post := TrimmedPart(s[1..]);
      pre := [s[0]] + pre;
    } else if IsSpace(s[|s| - 1]) {
      pre, post := TrimmedPart(s[..|s| - 1]);
      post := post + [s[|s| - 1]];
    } else {
      pre, post := "", "";
    }
  }

  lemma {:induction false} TrimInner(pre: string, core: string, post: string)
    requires AllSpace(pre) && AllSpace(post) && core != "" && !IsSpace(core[0]) && !IsSpace(core[|core| - 1])
    ensures Trim(pre + core + post) == core
    decreases |pre| + |post|
  {
    var s := pre + core + post;
    if pre != "" {
      assert s[0] == pre[0] && s[1..] == pre[1..] + core + post;
      TrimInner(pre[1..], core, post);
    } else if post != "" {
      assert s[0] == core[0] && s[|s| - 1] == post[|post| - 1] && s[..|s| - 1] == pre + core + post[..|post| - 1];
      TrimInner(pre, core, post[..|post| - 1]);
    } else {
      assert s == core;
    }
  }

  lemma {:induction false} DigitsEndAt(a: string, rest: string)
    requires AllDigits(a) && rest != "" && !('0' <= rest[0] <= '9')
    ensures DigitsEnd(a + rest) == |a|
  {
    if a == "" {
      assert a + rest == rest;
    } else {
      assert (a + rest)[1..] == a[1..] + rest;
      DigitsEndAt(a[1..], rest);
    }
  }

  lemma MatchedParts(text: string, a: string, b: string)
    ensures MatchRange(text) == Some((a, b)) <==> text == RANGE_PREFIX + a + "-" + b && AllDigits(a) && AllDigits(b)
  {
    if AllDigits(a) && AllDigits(b) { PartsMatch(a, b); }
    if MatchRange(text) == Some((a, b)) {
      var rest := text[|RANGE_PREFIX|..];
      assert rest == a + "-" + b;
      assert text == RANGE_PREFIX + rest;
    }
  }

  lemma PartsMatch(a: string, b: string)
    requires AllDigits(a) && AllDigits(b)
    ensures MatchRange(RANGE_PREFIX + a + "-" + b) == Some((a, b))
  {
    var rest := a + ("-" + b);
    assert RANGE_PREFIX + a + "-" + b == RANGE_PREFIX + rest;
    assert (RANGE_PREFIX + rest)[|RANGE_PREFIX|..] == rest;
    DigitsEndAt(a, "-" + b);
    assert rest[|a| + 1..] == b && rest[..|a|] == a;
  }

  /** The parser accepts exactly the grammar. */
  lemma SpelledHeader(header: string, pre: string, a: string, b: string, post: string)
    requires Spells(header, pre, a, b, post)
    ensures HeaderSpec(header) == SpecOf(a, b)
  {
    var core := RANGE_PREFIX + a + "-" + b;
    assert core[0] == 'b' && header == pre + core + post;
    assert core[|core| - 1] == if b == "" then '-' else b[|b| - 1];
    TrimInner(pre, core, post);
    MatchedParts(core, a, b);
  }

  lemma HeaderIsSpelled(header: string) returns (pre: string, a: string, b: string, post: string)
    requires HeaderSpec(header).Some?
    ensures Spells(header, pre, a, b, post) && SpecOf(a, b) == HeaderSpec(header)
  {
    pre, post := TrimmedPart(header);
    a, b := MatchRange(Trim(header)).value.0, MatchRange(Trim(header)).value.1;
    MatchedParts(Trim(header), a, b);
    assert header == pre + RANGE_PREFIX + a + "-" + b + post;
  }

  predicate Finite(d: Doubles, spec: RangeSpec) {
    match spec
    case FromTo(first, last) => d.of(first).Some? && d.of(last).Some?
    case From(first) => d.of(first).Some?
    case Suffix(n) => d.of(n).Some?
  }

  /** The parser on a spec already read. */
  function Resolve(d: Doubles, spec: RangeSpec, total: nat): Parsed {
    if total == 0 then Invalid
    else
      match spec
      case FromTo(first, last) => Clamped(d.of(first), d.of(last), total)
      case From(first) => Clamped(d.of(first), Some(total - 1), total)
      case Suffix(n) =>
        if d.of(n).None? || d.of(n).value == 0 then Invalid
        else Range(if d.of(n).value < total then total - d.of(n).value else 0, total - 1)
  }

  lemma ParseResolves(d: Doubles, header: string, total: nat)
    ensures ParseRangeHeader(d, header, total)
            == if HeaderSpec(header).None? then Invalid else Resolve(d, HeaderSpec(header).value, total)
  {
  }

  lemma RoundedSide(d: Doubles, n: nat, total: nat)
    requires Rounding(d) && total <= MAX_SAFE && d.of(n).Some?
    ensures d.of(n).value == n || (n > MAX_SAFE && d.of(n).value >= MAX_SAFE)
  {
    assert d.of(MAX_SAFE) == Some(MAX_SAFE);
  }

  /** Rounding never moves a range: what is resolved is what the spec asks for, if all of it is finite. */
  lemma ResolveIsExact(d: Doubles, spec: RangeSpec, total: nat)
    requires Rounding(d) && total <= MAX_SAFE
    ensures Resolve(d, spec, total).Range? <==> ValidSpec(spec) && Satisfiable(spec, total) && Finite(d, spec) && total > 0
    ensures Resolve(d, spec, total).Range? ==>
              var r := Resolve(d, spec, total);
              r.start <= r.end < total && forall i: nat :: Asks(spec, total, i) <==> r.start <= i <= r.end
  {
    match spec
    case FromTo(first, last) => FromToIsExact(d, first, last, total);
    case From(first) => if d.of(first).Some? { RoundedSide(d, first, total); }
    case Suffix(n) => if d.of(n).Some? { RoundedSide(d, n, total); }
  }

  lemma FromToIsExact(d: Doubles, first: nat, last: nat, total: nat)
    requires Rounding(d) && total <= MAX_SAFE
    ensures var r := Resolve(d, FromTo(first, last), total);
            && (r.Range? <==> first <= last && first < total && d.of(first).Some? && d.of(last).Some?)
            && (r.Range? ==> r.start == first && r.end == Min(last, total - 1))
  {
    if d.of(first).Some? { RoundedSide(d, first, total); }
    if d.of(last).Some? { RoundedSide(d, last, total); }
  }

  /** What section 2.1, 3.1 and 4.4 ask of a server that supports single byte ranges: ignore what is not one. */
  function RfcStatus(header: string, total: nat): nat {
    match HeaderSpec(header)
    case None => 200
    case Some(spec) => if !ValidSpec(spec) then 200 else if Satisfiable(spec, total) then 206 else 416
  }

  /** Where the server agrees: never on a header it should ignore, nor on a satisfiable range of an empty file or of infinite numbers. */
  lemma AgreesWithRfc(d: Doubles, header: string, head: bool, bytes: seq<Byte>)
    requires Rounding(d) && |bytes| <= MAX_SAFE && header != ""
    ensures FullResponse(d, Some(header), head, bytes).status == RfcStatus(header, |bytes|)
            <==> HeaderSpec(header).Some? && AgreesOn(d, HeaderSpec(header).value, |bytes|)
  {
    ParseResolves(d, header, |bytes|);
    if HeaderSpec(header).Some? { ResolveIsExact(d, HeaderSpec(header).value, |bytes|); }
  }

  /** Without a range, or with an empty header, the answer is the whole file. */
  ghost predicate WholeFile(r: Response, head: bool, bytes: seq<Byte>) {
    && r.status == 200 && r.contentLength == Some(|bytes|) && r.contentRange == None
    && (!head ==> r.body == bytes) && (head ==> r.body == [])
  }

  /** HEAD is answered as GET is, without the body; a range that cannot be served carries the size and nothing else. */
  lemma HeadLikeGet(d: Doubles, range: Option<string>, bytes: seq<Byte>)
    ensures var get, head := FullResponse(d, range, false, bytes), FullResponse(d, range, true, bytes);
            && head.status == get.status && head.contentLength == get.contentLength && head.contentRange == get.contentRange
            && head.body == []
            && (get.status == 200 || get.status == 206 || get.status == 416)
            && (get.status == 200 <==> range.None? || range.value == "")
            && (get.status == 416 ==> get.contentRange == Some(Unsatisfied(|bytes|)) && get.contentLength == None && get.body == [])
  {
  }

  predicate AgreesOn(d: Doubles, spec: RangeSpec, total: nat) {
    ValidSpec(spec) && (Satisfiable(spec, total) ==> Finite(d, spec) && total > 0)
  }

  /** Where it does not: a last position before the first gets 416, and should have been ignored. */
  lemma BackwardsRange(d: Doubles, head: bool, bytes: seq<Byte>)
    requires Rounding(d) && 0 < |bytes| <= MAX_SAFE
    ensures FullResponse(d, Some("bytes=5-3"), head, bytes).status == 416 && RfcStatus("bytes=5-3", |bytes|) == 200
  {
    SpelledHeader("bytes=5-3", "", "5", "3", "");
    ParseResolves(d, "bytes=5-3", |bytes|);
    assert Decimal("5") == 5 && Decimal("3") == 3;
  }

  /** A partial response carries exactly the bytes the header asks for, labelled with their positions. */
  lemma PartialIsWhatWasAsked(d: Doubles, header: string, bytes: seq<Byte>)
    requires Rounding(d) && |bytes| <= MAX_SAFE && FullResponse(d, Some(header), false, bytes).status == 206
    ensures HeaderSpec(header).Some?
    ensures var r := FullResponse(d, Some(header), false, bytes);
            && r.contentRange.Some? && r.contentRange.value.Span? && r.contentRange.value.total == |bytes|
            && IsSlice(r.body, bytes, r.contentRange.value.start, r.contentRange.value.end, HeaderSpec(header).value)
            && r.contentLength == Some(|r.body|)
  {
    ParseResolves(d, header, |bytes|);
    ResolveIsExact(d, HeaderSpec(header).value, |bytes|);
    SliceAnswered(HeaderSpec(header).value, Resolve(d, HeaderSpec(header).value, |bytes|), bytes);
  }

  lemma SliceAnswered(spec: RangeSpec, r: Parsed, bytes: seq<Byte>)
    requires r.Range? && r.start <= r.end < |bytes| && forall i: nat :: Asks(spec, |bytes|, i) <==> r.start <= i <= r.end
    ensures var a := Answer(r, false, bytes);
            a.contentRange == Some(Span(r.start, r.end, |bytes|)) && a.contentLength == Some(|a.body|)
            && IsSlice(a.body, bytes, r.start, r.end, spec)
  {
  }

  ghost predicate IsSlice(body: seq<Byte>, bytes: seq<Byte>, start: nat, end: int, spec: RangeSpec) {
    && start <= end < |bytes| && body == bytes[start..end + 1]
    && forall i: nat :: Asks(spec, |bytes|, i) <==> start <= i <= end
  }

  // ---------------------------------------------------------------- the bridge

  const MTIME_CACHE_TTL_MS: int := 30_000
  const MTIME_CACHE_MAX_ENTRIES: nat := 64

  datatype Pin = Pin(mtime: int, lastUsed: int)

  datatype RemoteFile = RemoteFile(bytes: seq<Byte>, mtime: int)

  datatype Fetched = Fetched(bytes: seq<Byte>, mtime: int, totalSize: nat) | PreconditionFailed | TransportFailed

  /** `fs.readBinaryRange`, when the transport is up. */
  function FetchRange(file: RemoteFile, up: bool, start: nat, length: nat, expectedMtime: Option<int>): Fetched {
    if !up then TransportFailed
    else if expectedMtime.Some? && expectedMtime.value != file.mtime then PreconditionFailed
    else Fetched(Slice(file.bytes, start, length), file.mtime, |file.bytes|)
  }

  predicate UnitSizes(cache: seq<Entry<Pin>>) {
    forall i | 0 <= i < |cache| :: cache[i].size == 1
  }

  lemma {:induction false} UnitTotal(cache: seq<Entry<Pin>>)
    requires UnitSizes(cache)
    ensures Total(cache) == |cache|
  {
    if cache != [] { UnitTotal(cache[1..]); }
  }

  function Refreshed(cache: seq<Entry<Pin>>, path: string, now: int): (r: seq<Entry<Pin>>)
    ensures |r| == |cache|
    ensures forall i | 0 <= i < |r| :: r[i].key == cache[i].key && r[i].size == cache[i].size
  {
    if cache == [] then []
    else if cache[0].key == path then [cache[0].(value := cache[0].value.(lastUsed := now))] + cache[1..]
    else [cache[0]] + Refreshed(cache[1..], path, now)
  }

  /** The cache after a lookup: a live pin is refreshed where it stands, a stale one dropped. */
  function LookedUp(cache: seq<Entry<Pin>>, path: string, now: int): seq<Entry<Pin>> {
    match Lookup(cache, path)
    case None => cache
    case Some(e) =>
      if now - e.value.lastUsed > MTIME_CACHE_TTL_MS then Without(cache, Only(path)) else Refreshed(cache, path, now)
  }

  lemma {:induction false} RefreshedLookup(cache: seq<Entry<Pin>>, path: string, now: int, k: string)
    ensures Lookup(Refreshed(cache, path, now), k)
            == if k == path && Lookup(cache, k).Some?
               then Some(Lookup(cache, k).value.(value := Lookup(cache, k).value.value.(lastUsed := now)))
               else Lookup(cache, k)
  {
    if cache != [] { RefreshedLookup(cache[1..], path, now, k); }
  }

  /** A pin lives 30 seconds from its last use; looking it up renews it or drops it, and touches no other. */
  lemma {:induction false} PinLives(cache: seq<Entry<Pin>>, path: string, now: int, k: string)
    requires Lookup(cache, path).Some?
    ensures var pin := Lookup(cache, path).value;
            Lookup(LookedUp(cache, path, now), path)
            == if now - pin.value.lastUsed <= 30_000 then Some(Entry(pin.key, Pin(pin.value.mtime, now), pin.size)) else None
    ensures k != path ==> Lookup(LookedUp(cache, path, now), k) == Lookup(cache, k)
  {
    RefreshedLookup(cache, path, now, path);
    RefreshedLookup(cache, path, now, k);
    LookupWithout(cache, Only(path), path);
    LookupWithout(cache, Only(path), k);
  }

  class ResourceBridge {
    const doubles: Doubles
    /** The Map, in insertion order. */
    var mtimeCache: seq<Entry<Pin>>

    ghost predicate Valid()
      reads this
    {
      Rounding(doubles) && Distinct(mtimeCache) && UnitSizes(mtimeCache) && |mtimeCache| <= MTIME_CACHE_MAX_ENTRIES
    }

    constructor (doubles: Doubles)
      requires Rounding(doubles)
      ensures Valid() && mtimeCache == []
    {
      this.doubles, mtimeCache := doubles, [];
    }

    method LookupMtime(path: string, now: int) returns (mtime: Option<int>)
      requires Valid()
      modifies this
      ensures Valid() && mtimeCache == LookedUp(old(mtimeCache), path, now)
      ensures mtime == match Lookup(old(mtimeCache), path) {
                case None => None
                case Some(e) => if now - e.value.lastUsed > MTIME_CACHE_TTL_MS then None else Some(e.value.mtime)
              }
    {
      DropKeeps(mtimeCache, path);
      var entry := Lookup(mtimeCache, path);
      if entry.None? { return None; }
      if now - entry.value.value.lastUsed > MTIME_CACHE_TTL_MS {
        mtimeCache := Without(mtimeCache, Only(path));
        return None;
      }
      mtimeCache := Refreshed(mtimeCache, path, now);
      return Some(entry.value.value.mtime);
    }

    /** Delete then insert, so the entry moves to the back; past the limit the front goes. */
    method StoreMtime(path: string, mtime: int, now: int)
      requires Valid()
      modifies this
      ensures Valid()
      ensures mtimeCache == Lru.Put(old(mtimeCache), Entry(path, Pin(mtime, now), 1), MTIME_CACHE_MAX_ENTRIES, MTIME_CACHE_MAX_ENTRIES)
      ensures Lookup(mtimeCache, path) == Some(Entry(path, Pin(mtime, now), 1))
    {
      DropKeeps(mtimeCache, path);
      var e := Entry(path, Pin(mtime, now), 1);
      PutKeepsNewest(mtimeCache, e, MTIME_CACHE_MAX_ENTRIES, MTIME_CACHE_MAX_ENTRIES);
      AppendDistinct(mtimeCache, e);
      mtimeCache := Without(mtimeCache, Only(path)) + [e];
      UnitTotal(mtimeCache);
      UnitTotal(mtimeCache[1..]);
      assert |mtimeCache[1..]| <= MTIME_CACHE_MAX_ENTRIES ==> Evict(mtimeCache[1..], MTIME_CACHE_MAX_ENTRIES) == mtimeCache[1..];
      if |mtimeCache| > MTIME_CACHE_MAX_ENTRIES {
        mtimeCache := mtimeCache[1..];
      }
    }

    /** None falls through to the full path: nothing to pin down, or a read failed. */
    method ServeRangeFastPath(path: string, header: string, head: bool, file: RemoteFile, now: int, up: bool, stillUp: bool)
      returns (r: Option<Response>)
      requires Valid() && |file.bytes| <= MAX_SAFE
      modifies this
      ensures Valid()
      ensures r.Some? ==> r.value == FullResponse(doubles, Some(header), head, file.bytes)
      ensures up && stillUp && ParseExplicitByteRange(doubles, header).Some? ==> r.Some?
    {
      var explicit := ParseExplicitByteRange(doubles, header);
      if explicit.None? { return None; }
      var (start, length) := explicit.value;
      FastEqualsFull(doubles, header, head, file.bytes);
      var expectedMtime := LookupMtime(path, now);
      var result := FetchRange(file, up, start, length, expectedMtime);
      if result.PreconditionFailed? {
        DropKeeps(mtimeCache, path);
        mtimeCache := Without(mtimeCache, Only(path));
        result := FetchRange(file, stillUp, start, length, None);
      }
      if !result.Fetched? { return None; }
      StoreMtime(path, result.mtime, now);
      return Some(FastResponse(start, head, result.bytes, result.totalSize));
    }

    /** A ranged request, whatever is cached for the path and whichever ranged reads fail. */
    method HandleRequest(path: string, range: Option<string>, head: bool, file: RemoteFile, now: int,
                         rangeSupported: bool, up: bool, stillUp: bool)
      returns (r: Response)
      requires Valid() && |file.bytes| <= MAX_SAFE
      modifies this
      ensures Valid() && r == FullResponse(doubles, range, head, file.bytes)
      ensures range.None? || range.value == "" ==> WholeFile(r, head, file.bytes)
      ensures head ==> r.body == []
      ensures r.status == 416 ==> r.contentRange == Some(Unsatisfied(|file.bytes|)) && r.body == []
    {
      HeadLikeGet(doubles, range, file.bytes);
      if rangeSupported && range.Some? && range.value != "" {
        var served := ServeRangeFastPath(path, range.value, head, file, now, up, stillUp);
        if served.Some? { return served.value; }
      }
      r := ServeFullBinary(range, head, file.bytes);
    }

    method ServeFullBinary(range: Option<string>, head: bool, bytes: seq<Byte>) returns (r: Response)
      ensures r == FullResponse(doubles, range, head, bytes)
    {
      if range.None? || range.value == "" {
        return Response(200, Some(|bytes|), None, Body(head, bytes));
      }
      var parsed := ParseRangeHeader(doubles, range.value, |bytes|);
      r := Answer(parsed, head, bytes);
    }
  }

  lemma {:induction false} DropKeeps(cache: seq<Entry<Pin>>, path: string)
    requires Distinct(cache) && UnitSizes(cache)
    ensures var r := Without(cache, Only(path)); Distinct(r) && UnitSizes(r) && |r| <= |cache|
    ensures Lookup(cache, path).Some? ==> |Without(cache, Only(path))| == |cache| - 1
  {
    WithoutMembers(cache, Only(path));
    RemoveOneTotal(cache, path);
    UnitTotal(cache);
    UnitTotal(Without(cache, Only(path)));
    LookupMember(cache, path);
  }
}
