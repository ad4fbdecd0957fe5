// The pure half of pin.rs and subbus.rs: the constant pin names, the
// `PinRange` of the HDL range syntax `name`, `name[k]`, `name[a..b]`, and
// `parse_pin_range`, which reads that syntax from text.
module PinRanges {
  import opened Signal
  import opened Errors

  // ---------------------------------------------------------------------
  // Constant pins (pin.rs).
  // ---------------------------------------------------------------------

  /** `is_constant_pin`. */
  predicate IsConstantPin(name: string)
  {
    name == "false" || name == "true" || name == "0" || name == "1"
  }

  /** The level `ConstantPin::new` gives a constant name, or its error. */
  function ConstantLevel(name: string): (r: Result<Voltage>)
    ensures r.Ok? <==> IsConstantPin(name)
    ensures r.Ok? ==> (r.value == HIGH <==> name == "true" || name == "1")
    ensures r.Ok? ==> (r.value == LOW <==> name == "false" || name == "0")
    ensures r.Err? ==> r.fault == Hardware
  {
    if name == "false" || name == "0" then Ok(LOW)
    else if name == "true" || name == "1" then Ok(HIGH)
    else Err(Hardware)
  }

  // ---------------------------------------------------------------------
  // PinRange.
  // ---------------------------------------------------------------------

  /** A pin name with an optional inclusive bit range. */
  datatype PinRange = PinRange(pinName: string, start: Option<nat>, end: Option<nat>)
  {
    /** Start and end are both given or both absent, and in order. */
    predicate Valid()
    {
      start.Some? == end.Some? && (start.Some? ==> start.value <= end.value)
    }

    /** `PinRange::width`: the number of bits named, 1 for a whole pin. */
    function Width(): (w: nat)
      requires Valid()
      ensures w >= 1
      ensures IsFullPin() ==> w == 1
      ensures !IsFullPin() ==> w == EndIndex() - StartIndex() + 1
    {
      if start.Some? then end.value - start.value + 1 else 1
    }

    predicate IsFullPin()
    {
      start.None? && end.None?
    }

    predicate IsSingleBit()
    {
      start == end && start.Some?
    }

    /** `start_index`: 0 for a whole pin. */
    function StartIndex(): nat
    {
      if start.Some? then start.value else 0
    }

    /** `end_index`: the end, else the start, else 0. */
    function EndIndex(): nat
    {
      if end.Some? then end.value else StartIndex()
    }
  }

  /** `PinRange::new`. */
  function Whole(name: string): (r: PinRange)
    ensures r.Valid() && r.IsFullPin() && r.Width() == 1 && r.pinName == name
  {
    PinRange(name, None, None)
  }

  /** `PinRange::new_single_bit`. */
  function SingleBit(name: string, bit: nat): (r: PinRange)
    ensures r.Valid() && r.IsSingleBit() && r.Width() == 1
    ensures r.pinName == name && r.StartIndex() == r.EndIndex() == bit
  {
    PinRange(name, Some(bit), Some(bit))
  }

  /** `PinRange::new_range`: rejects a start past the end. */
  function NewRange(name: string, start: nat, end: nat): (r: Result<PinRange>)
    ensures r.Ok? <==> start <= end
    ensures r.Ok? ==> r.value.Valid() && !r.value.IsFullPin() && r.value.pinName == name
    ensures r.Ok? ==> r.value.StartIndex() == start && r.value.EndIndex() == end
    ensures r.Ok? ==> r.value.Width() == end - start + 1
    ensures r.Err? ==> r.fault == Hardware
  {
    if start > end then Err(Hardware) else Ok(PinRange(name, Some(start), Some(end)))
  }

  // ---------------------------------------------------------------------
  // The text operations `parse_pin_range` uses.
  // ---------------------------------------------------------------------

  /** sep occurs in s at position k. */
  predicate MatchAt(s: string, sep: string, k: nat)
  {
    k + |sep| <= |s| && s[k..k + |sep|] == sep
  }

  /** The first position at or after i where sep occurs in s. */
  function FindFrom(s: string, sep: string, i: nat): (r: Option<nat>)
    requires |sep| > 0
    ensures r.Some? ==> i <= r.value && MatchAt(s, sep, r.value)
    ensures r.Some? ==> forall k | i <= k < r.value :: !MatchAt(s, sep, k)
    ensures r.None? ==> forall k | i <= k :: !MatchAt(s, sep, k)
    decreases |s| - i
  {
    if i + |sep| > |s| then None
    else if MatchAt(s, sep, i) then Some(i)
    else FindFrom(s, sep, i + 1)
  }

  /** The first position where sep occurs in s. */
  function Find(s: string, sep: string): (r: Option<nat>)
    requires |sep| > 0
    ensures r.Some? ==> MatchAt(s, sep, r.value)
    ensures r.Some? ==> forall k: nat | k < r.value :: !MatchAt(s, sep, k)
    ensures r.None? ==> forall k: nat :: !MatchAt(s, sep, k)
  {
    FindFrom(s, sep, 0)
  }

  /** `str::split(sep)`: the pieces between non-overlapping occurrences, left to right. */
  function SplitOn(s: string, sep: string): (parts: seq<string>)
    requires |sep| > 0
    ensures |parts| >= 1
    decreases |s|
  {
    match Find(s, sep)
      case None => [s]
      case Some(k) => [s[..k]] + SplitOn(s[k + |sep|..], sep)
  }

  predicate EndsWith(s: string, c: char)
  {
    |s| > 0 && s[|s| - 1] == c
  }

  /** `str::trim_end_matches(c)`: drops every trailing c. */
  function TrimEnd(s: string, c: char): (t: string)
    ensures |t| <= |s| && t == s[..|t|]
    ensures !EndsWith(t, c)
    ensures forall i | |t| <= i < |s| :: s[i] == c
  {
    if EndsWith(s, c) then
      var t := TrimEnd(s[..|s| - 1], c);
      assert forall i | |t| <= i < |s| - 1 :: s[i] == s[..|s| - 1][i];
      t
    else s
  }

  predicate IsDigit(c: char)
  {
    '0' <= c <= '9'
  }

  predicate AllDigits(s: string)
  {
    forall i | 0 <= i < |s| :: IsDigit(s[i])
  }

  /** The value of a string of decimal digits, most significant first. */
  function DigitsValue(s: string): nat
    requires AllDigits(s)
  {
    if |s| == 0 then 0
    else
      var last := s[|s| - 1];
      assert IsDigit(last);
      10 * DigitsValue(s[..|s| - 1]) + (last as int - '0' as int)
  }

  const USIZE_LIMIT: nat := 0x1_0000_0000_0000_0000

  /** `str::parse::<usize>`: an optional '+', then one or more decimal
    * digits whose value fits in 64 bits. */
  function ParseUsize(s: string): (r: Option<nat>)
    ensures r.Some? ==> r.value < USIZE_LIMIT
    ensures r.Some? ==> |s| > 0 && (IsDigit(s[0]) || s[0] == '+')
  {
    var body := if |s| > 0 && s[0] == '+' then s[1..] else s;
    if |body| == 0 || !AllDigits(body) then None
    else if DigitsValue(body) >= USIZE_LIMIT then None
    else Some(DigitsValue(body))
  }

  /** The decimal text of n, without leading zeros. */
  function Digits(n: nat): (s: string)
    ensures |s| > 0 && AllDigits(s)
  {
    var d := [('0' as int + n % 10) as char];
    if n < 10 then d else Digits(n / 10) + d
  }

  lemma {:induction false} DigitsRoundTrip(n: nat)
    ensures DigitsValue(Digits(n)) == n
  {
    var s := Digits(n);
    if n >= 10 {
      DigitsRoundTrip(n / 10);
      assert s[..|s| - 1] == Digits(n / 10);
    }
  }

  /** Parsing the decimal text of a 64-bit number gives it back. */
  lemma ParseDigits(n: nat)
    requires n < USIZE_LIMIT
    ensures ParseUsize(Digits(n)) == Some(n)
  {
    DigitsRoundTrip(n);
  }

  // ---------------------------------------------------------------------
  // parse_pin_range.
  // ---------------------------------------------------------------------

  /** `parse_pin_range`: "name", "name[k]" or "name[a..b]", a reversed range
    * normalised to a <= b. */
  function ParsePinRange(spec: string): (r: Result<PinRange>)
    ensures spec == [] ==> r.Err?
    ensures r.Err? ==> r.fault == Parse || r.fault == Hardware
    ensures r.Ok? ==> r.value.Valid() && r.value.pinName != [] && '[' !in r.value.pinName
    ensures '[' !in spec && spec != [] ==> r == Ok(Whole(spec))
  {
    if spec == [] then Err(Parse)
    else if '[' !in spec then Ok(Whole(spec))
    else
      var parts := SplitOn(spec, "[");
      if |parts| != 2 || parts[0] == [] || !EndsWith(parts[1], ']') then Err(Parse)
      else
        NoSepBeforeFirst(spec, "[");
        ParseIndex(parts[0], TrimEnd(parts[1], ']'))
  }

  /** What `parse_pin_range` does with the text between the brackets. */
  function ParseIndex(name: string, rangePart: string): (r: Result<PinRange>)
    ensures r.Err? ==> r.fault == Parse
    ensures r.Ok? ==> r.value.Valid() && !r.value.IsFullPin() && r.value.pinName == name
  {
    if Find(rangePart, "..").Some? then
      var bounds := SplitOn(rangePart, "..");
      if |bounds| != 2 then Err(Parse) else ParseBounds(name, bounds[0], bounds[1])
    else match ParseUsize(rangePart)
      case None => Err(Parse)
      case Some(bit) => Ok(SingleBit(name, bit))
  }

  /** Both bounds of "lo..hi" as numbers, in order. */
  function ParseBounds(name: string, lo: string, hi: string): (r: Result<PinRange>)
    ensures r.Err? ==> r.fault == Parse
    ensures r.Ok? ==> r.value.Valid() && !r.value.IsFullPin() && r.value.pinName == name
  {
    match (ParseUsize(lo), ParseUsize(hi))
      case (None, _) => Err(Parse)
      case (_, None) => Err(Parse)
      case (Some(a), Some(b)) =>
        if a > b then Ok(PinRange(name, Some(b), Some(a)))
        else Ok(PinRange(name, Some(a), Some(b)))
  }

  /** "lo..hi" with no dot in either bound is handed to ParseBounds. */
  lemma SpanIndex(name: string, lo: string, hi: string)
    requires '.' !in lo && '.' !in hi
    ensures ParseIndex(name, lo + ".." + hi) == ParseBounds(name, lo, hi)
  {
    var inner := lo + ".." + hi;
    SplitTwo(lo, "..", hi);
    assert MatchAt(inner, "..", |lo|) by {
      assert inner[|lo|..|lo| + 2] == "..";
    }
  }

  /** The first piece of a split on a one-character separator holds no
    * such character. */
  lemma NoSepBeforeFirst(s: string, sep: string)
    requires |sep| == 1
    ensures sep[0] !in SplitOn(s, sep)[0]
  {
    var stop := match Find(s, sep) case None => |s| case Some(k) => k;
    forall j | 0 <= j < stop
      ensures s[j] != sep[0]
    {
      assert !MatchAt(s, sep, j);
      assert s[j..j + 1] == [s[j]];
    }
  }

  lemma NoMatchWithout(s: string, sep: string)
    requires |sep| > 0 && sep[0] !in s
    ensures Find(s, sep) == None
  {
  }

  /** A separator whose first character occurs in neither piece splits
    * `a + sep + b` back into a and b. */
  lemma SplitTwo(a: string, sep: string, b: string)
    requires |sep| > 0 && sep[0] !in a && sep[0] !in b
    ensures SplitOn(a + sep + b, sep) == [a, b]
  {
    var s := a + sep + b;
    NoMatchWithout(b, sep);
    assert MatchAt(s, sep, |a|) by {
      assert s[|a|..|a| + |sep|] == sep;
    }
    var k := Find(s, sep).value;
    assert k == |a|;
    assert s[..k] == a;
    assert s[k + |sep|..] == b;
  }

  /** A closing bracket that ends "name[inner]" is the only one trimmed. */
  lemma TrimClose(inner: string)
    requires ']' !in inner
    ensures TrimEnd(inner + "]", ']') == inner
  {
    assert (inner + "]")[..|inner|] == inner;
  }

  /** "name[inner]" with one bracket pair comes down to the inner text. */
  lemma Bracketed(name: string, inner: string)
    requires name != [] && '[' !in name && '[' !in inner
    ensures ParsePinRange(name + "[" + inner + "]") == ParseIndex(name, TrimEnd(inner + "]", ']'))
  {
    var rest := inner + "]";
    var spec := name + "[" + rest;
    assert spec == name + "[" + inner + "]";
    assert '[' !in rest;
    assert spec[|name|] == '[';
    SplitTwo(name, "[", rest);
    var parts := SplitOn(spec, "[");
    assert |parts| == 2 && parts[0] == name && parts[1] == rest;
    assert EndsWith(rest, ']');
  }

  /** Any bare name without a bracket parses to the whole pin. */
  lemma ParseWhole(name: string)
    requires name != [] && '[' !in name
    ensures ParsePinRange(name) == Ok(Whole(name))
  {
  }

  /** Digits are neither brackets nor dots. */
  lemma NoMarks(s: string)
    requires AllDigits(s)
    ensures '[' !in s && ']' !in s && '.' !in s
  {
    forall i | 0 <= i < |s|
      ensures s[i] != '[' && s[i] != ']' && s[i] != '.'
    {
      assert IsDigit(s[i]);
    }
  }

  /** "name[k]" parses to the single bit k. */
  lemma ParseSingleBit(name: string, k: nat)
    requires name != [] && '[' !in name && k < USIZE_LIMIT
    ensures ParsePinRange(name + "[" + Digits(k) + "]") == Ok(SingleBit(name, k))
  {
    NoMarks(Digits(k));
    Bracketed(name, Digits(k));
    TrimClose(Digits(k));
    NoMatchWithout(Digits(k), "..");
    ParseDigits(k);
  }

  /** "name[a..b]" parses to the range from min(a, b) to max(a, b). */
  lemma ParseSpan(name: string, a: nat, b: nat)
    requires name != [] && '[' !in name && a < USIZE_LIMIT && b < USIZE_LIMIT
    ensures ParsePinRange(name + "[" + Digits(a) + ".." + Digits(b) + "]")
      == Ok(PinRange(name, Some(if a <= b then a else b), Some(if a <= b then b else a)))
  {
    var lo, hi := Digits(a), Digits(b);
    NoMarks(lo);
    NoMarks(hi);
    SpanText(name, lo, hi);
    ParseDigits(a);
    ParseDigits(b);
  }

  /** "name[lo..hi]" with plain bounds comes down to ParseBounds. */
  lemma SpanText(name: string, lo: string, hi: string)
    requires name != [] && '[' !in name
    requires '[' !in lo && '.' !in lo && ']' !in lo && '[' !in hi && '.' !in hi && ']' !in hi
    ensures ParsePinRange(name + "[" + lo + ".." + hi + "]") == ParseBounds(name, lo, hi)
  {
    var inner := lo + ".." + hi;
    assert name + "[" + lo + ".." + hi + "]" == name + "[" + inner + "]";
    assert '[' !in inner && ']' !in inner by {
      assert forall c | c in inner :: c in lo || c == '.' || c in hi;
    }
    Bracketed(name, inner);
    TrimClose(inner);
    SpanIndex(name, lo, hi);
  }

  /** A name must come before the bracket. */
  lemma ParseNeedsName(rest: string)
    ensures ParsePinRange("[" + rest).Err?
  {
    var spec := "[" + rest;
    assert spec[0] == '[';
    assert MatchAt(spec, "[", 0) by {
      assert spec[..1] == "[";
    }
  }

  /** A bracketed range must be closed by a ']' at the end. */
  lemma ParseNeedsClose(name: string, inner: string)
    requires '[' !in name && '[' !in inner && !EndsWith(inner, ']')
    ensures ParsePinRange(name + "[" + inner).Err?
  {
    var spec := name + "[" + inner;
    assert spec[|name|] == '[';
    SplitTwo(name, "[", inner);
  }

  /** A single index that is not a number is refused. */
  lemma ParseNeedsNumber(name: string, index: string)
    requires name != [] && '[' !in name
    requires '[' !in index && ']' !in index && '.' !in index
    requires ParseUsize(index).None?
    ensures ParsePinRange(name + "[" + index + "]").Err?
  {
    Bracketed(name, index);
    TrimClose(index);
    NoMatchWithout(index, "..");
  }

  /** A range whose bounds are not both numbers is refused. */
  lemma ParseNeedsNumbers(name: string, lo: string, hi: string)
    requires name != [] && '[' !in name
    requires '[' !in lo && '.' !in lo && ']' !in lo && '[' !in hi && '.' !in hi && ']' !in hi
    requires ParseUsize(lo).None? || ParseUsize(hi).None?
    ensures ParsePinRange(name + "[" + lo + ".." + hi + "]").Err?
  {
    SpanText(name, lo, hi);
  }
}
