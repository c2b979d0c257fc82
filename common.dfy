module Common {

  datatype Option<T> = None | Some(value: T)

  /** Which failure branch of the client was taken; the exception class is not modelled. */
  datatype Error =
    | NoCandidate(options: seq<string>)        // "No candidate for …, your options include …"
    | MultipleCandidates(matches: seq<string>) // "Multiple candidates for …"
    | NotLocated(what: string)                 // a bounded file/directory search gave up
    | Failure(cause: string)                   // any other exception raised on the way

  datatype Result<T> = Ok(value: T) | Err(error: Error)
  {
    predicate IsFailure() { Err? }
    function PropagateFailure<U>(): Result<U> requires Err? { Err(error) }
    function Extract(): T requires Ok? { value }
  }

  /** The first list followed by the second, or the first failure. */
  function Then<T>(x: Result<seq<T>>, y: Result<seq<T>>): Result<seq<T>>
  {
    match x
    case Err(e) => Err(e)
    case Ok(p) =>
      match y
      case Err(e) => Err(e)
      case Ok(q) => Ok(p + q)
  }

  lemma ThenAssociative<T>(x: Result<seq<T>>, y: Result<seq<T>>, z: Result<seq<T>>)
    ensures Then(Then(x, y), z) == Then(x, Then(y, z))
  {
    if x.Ok? && y.Ok? && z.Ok? {
      assert x.value + y.value + z.value == x.value + (y.value + z.value);
    }
  }

  /** A parsed YAML/JSON document. */
  datatype Json =
    | JNull
    | JBool(b: bool)
    | JInt(n: int)
    | JStr(s: string)
    | JList(items: seq<Json>)
    | JObj(fields: map<string, Json>)

  /** Values Python can use as dictionary keys: lists and dicts cannot. */
  predicate Hashable(j: Json)
  {
    !j.JList? && !j.JObj?
  }

  /** A request argument as handed to `urlencode`: name and the `str()` of its value. */
  type Pair = (string, string)

  // ---------------------------------------------------------------- characters

  function LowerChar(c: char): char
  {
    if 'A' <= c <= 'Z' then (c as int + 32) as char else c
  }

  /** `str.lower()`, restricted to ASCII letters. */
  function Lower(s: string): (r: string)
    ensures |r| == |s|
  {
    if s == [] then [] else [LowerChar(s[0])] + Lower(s[1..])
  }

  /** An ASCII letter or digit. */
  predicate AsciiAlnum(c: char)
  {
    'a' <= c <= 'z' || 'A' <= c <= 'Z' || '0' <= c <= '9'
  }

  function UpperChar(c: char): char
  {
    if 'a' <= c <= 'z' then (c as int - 32) as char else c
  }

  /** `str.upper()`, restricted to ASCII letters. */
  function Upper(s: string): (r: string)
    ensures |r| == |s|
  {
    if s == [] then [] else [UpperChar(s[0])] + Upper(s[1..])
  }

  predicate IsDigit(c: char) { '0' <= c <= '9' }

  /**
   * The characters `str.isspace()` accepts, which `str.strip()` and `int()`
   * remove: the ASCII controls 9-13 and 28-31, the space, NEL, NO-BREAK
   * SPACE and the Unicode space separators, line and paragraph separators.
   */
  predicate IsSpace(c: char)
  {
    var n := c as int;
    (9 <= n <= 13) || (28 <= n <= 32) || n == 0x85 || n == 0xA0 || n == 0x1680 ||
    (0x2000 <= n <= 0x200A) || n == 0x2028 || n == 0x2029 || n == 0x202F || n == 0x205F || n == 0x3000
  }

  // ---------------------------------------------------------------- substrings

  predicate IsPrefix(p: string, s: string)
  {
    |p| <= |s| && s[..|p|] == p
  }

  predicate OccursAt(needle: string, hay: string, i: nat)
  {
    i + |needle| <= |hay| && hay[i..i + |needle|] == needle
  }

  /** Python's `needle in hay`. */
  predicate Contains(needle: string, hay: string)
    decreases |hay|
  {
    IsPrefix(needle, hay) || (|hay| > 0 && Contains(needle, hay[1..]))
  }

  /** The first position at which `needle` occurs in `hay`, as `str.find` would report it. */
  function Find(needle: string, hay: string): (r: Option<nat>)
    ensures r.Some? ==> OccursAt(needle, hay, r.value)
    ensures r.Some? ==> forall j :: 0 <= j < r.value ==> !OccursAt(needle, hay, j)
    ensures r.None? ==> forall j :: 0 <= j <= |hay| ==> !OccursAt(needle, hay, j)
    decreases |hay|
  {
    if IsPrefix(needle, hay) then
      Some(0)
    else if |hay| == 0 then
      None
    else
      match Find(needle, hay[1..])
      case None =>
        assert forall j :: 1 <= j <= |hay| ==> (OccursAt(needle, hay, j) <==> OccursAt(needle, hay[1..], j - 1));
        None
      case Some(k) =>
        assert forall j :: 1 <= j <= |hay| ==> (OccursAt(needle, hay, j) <==> OccursAt(needle, hay[1..], j - 1));
        Some(k + 1)
  }

  lemma {:induction false} ContainsIffFound(needle: string, hay: string)
    ensures Contains(needle, hay) <==> Find(needle, hay).Some?
    decreases |hay|
  {
    if !IsPrefix(needle, hay) && |hay| > 0 {
      ContainsIffFound(needle, hay[1..]);
    }
  }

  /** A text without `c` contains no needle that has `c` in it. */
  lemma {:induction false} NoCharNoOccurrence(needle: string, hay: string, c: char)
    requires c in needle && c !in hay
    ensures !Contains(needle, hay)
    decreases |hay|
  {
    if |hay| > 0 {
      NoCharNoOccurrence(needle, hay[1..], c);
    }
  }

  // ---------------------------------------------------------------- join / split

  /** `sep.join(parts)`. */
  function Join(parts: seq<string>, sep: string): string
  {
    if |parts| == 0 then ""
    else if |parts| == 1 then parts[0]
    else parts[0] + sep + Join(parts[1..], sep)
  }

  /** `s.split(sep)` for a non-empty separator: cut at every non-overlapping occurrence, left to right. */
  function Split(s: string, sep: string): (r: seq<string>)
    requires |sep| > 0
    ensures |r| >= 1
    decreases |s|
  {
    match Find(sep, s)
    case None => [s]
    case Some(i) => [s[..i]] + Split(s[i + |sep|..], sep)
  }

  /** `s.replace(target, replacement)`: the split on `target` joined with `replacement`, as in Python. */
  function Replace(s: string, target: string, replacement: string): string
    requires |target| > 0
  {
    Join(Split(s, target), replacement)
  }

  lemma {:induction false} JoinSplit(s: string, sep: string)
    requires |sep| > 0
    ensures Join(Split(s, sep), sep) == s
    decreases |s|
  {
    match Find(sep, s)
    case None =>
    case Some(i) =>
      var head, rest := s[..i], s[i + |sep|..];
      var tail := Split(rest, sep);
      assert Split(s, sep) == [head] + tail;
      JoinSplit(rest, sep);
      assert ([head] + tail)[1..] == tail;
      assert Join([head] + tail, sep) == head + sep + Join(tail, sep);
      assert s[i..i + |sep|] == sep;
      assert s == head + s[i..i + |sep|] + rest;
  }

  /** No piece of a split contains the separator. */
  lemma {:induction false} SplitPiecesFree(s: string, sep: string)
    requires |sep| > 0
    ensures forall k :: 0 <= k < |Split(s, sep)| ==> !Contains(sep, Split(s, sep)[k])
    decreases |s|
  {
    match Find(sep, s)
    case None =>
      ContainsIffFound(sep, s);
    case Some(i) =>
      var rest := s[i + |sep|..];
      SplitPiecesFree(rest, sep);
      var head := s[..i];
      forall j | 0 <= j <= |head| ensures !OccursAt(sep, head, j) {
        if OccursAt(sep, head, j) {
          assert head[j..j + |sep|] == s[j..j + |sep|];
          assert OccursAt(sep, s, j);
        }
      }
      ContainsIffFound(sep, head);
      assert Split(s, sep) == [head] + Split(rest, sep);
  }

  /** Splitting a text free of the separator gives the text itself. */
  lemma SplitFree(s: string, sep: string)
    requires |sep| > 0 && !Contains(sep, s)
    ensures Split(s, sep) == [s]
  {
    ContainsIffFound(sep, s);
  }

  /** Splitting `a + sep + b` where `a` does not contain `sep`, nor does any overlap reach into `sep + b` early. */
  lemma SplitAtFirst(a: string, sep: string, b: string)
    requires |sep| > 0
    requires forall j :: 0 <= j < |a| ==> !OccursAt(sep, a + sep + b, j)
    ensures Split(a + sep + b, sep) == [a] + Split(b, sep)
  {
    var s := a + sep + b;
    assert OccursAt(sep, s, |a|);
    assert s[..|a|] == a;
    assert s[|a| + |sep|..] == b;
  }

  /** For a one-character needle, `in` is membership. */
  lemma {:induction false} ContainsChar(c: char, s: string)
    ensures Contains([c], s) <==> c in s
    decreases |s|
  {
    if |s| > 0 {
      ContainsChar(c, s[1..]);
      assert s == [s[0]] + s[1..];
    }
  }

  /** No piece of a split on one character holds that character. */
  lemma SplitCharPieces(s: string, c: char)
    ensures forall k :: 0 <= k < |Split(s, [c])| ==> c !in Split(s, [c])[k]
  {
    SplitPiecesFree(s, [c]);
    forall k | 0 <= k < |Split(s, [c])| ensures c !in Split(s, [c])[k] {
      ContainsChar(c, Split(s, [c])[k]);
    }
  }

  /** A joined text holds a character only if a part or the separator does. */
  lemma {:induction false} JoinChar(parts: seq<string>, sep: string, c: char)
    requires c !in sep
    requires forall k :: 0 <= k < |parts| ==> c !in parts[k]
    ensures c !in Join(parts, sep)
    decreases |parts|
  {
    if |parts| > 1 {
      JoinChar(parts[1..], sep, c);
    }
  }

  /** Splitting undoes joining when no part holds the separator's first character. */
  lemma {:induction false} SplitJoin(parts: seq<string>, sep: string)
    requires |parts| >= 1 && |sep| > 0
    requires forall k :: 0 <= k < |parts| ==> sep[0] !in parts[k]
    ensures Split(Join(parts, sep), sep) == parts
    decreases |parts|
  {
    if |parts| == 1 {
      NoCharNoOccurrence(sep, parts[0], sep[0]);
      SplitFree(parts[0], sep);
    } else {
      var a, b := parts[0], Join(parts[1..], sep);
      forall j | 0 <= j < |a| ensures !OccursAt(sep, a + sep + b, j) {
        assert (a + sep + b)[j] == a[j];
        assert (a + sep + b)[j..j + |sep|][0] == a[j];
      }
      SplitAtFirst(a, sep, b);
      SplitJoin(parts[1..], sep);
      assert parts == [a] + parts[1..];
    }
  }

  /** Splitting on one character undoes joining parts that do not hold it. */
  lemma SplitJoinChar(parts: seq<string>, c: char)
    requires |parts| >= 1
    requires forall k :: 0 <= k < |parts| ==> c !in parts[k]
    ensures Split(Join(parts, [c]), [c]) == parts
  {
    SplitJoin(parts, [c]);
  }

  /** Every occurrence of the character `c` replaced by `d`, position by position. */
  function SubstChar(s: string, c: char, d: char): (r: string)
    ensures |r| == |s| && forall i :: 0 <= i < |s| ==> r[i] == (if s[i] == c then d else s[i])
  {
    if |s| == 0 then [] else [if s[0] == c then d else s[0]] + SubstChar(s[1..], c, d)
  }

  /** Replacing a one-character target works position by position. */
  lemma {:induction false} ReplaceChar(s: string, c: char, d: char)
    ensures Replace(s, [c], [d]) == SubstChar(s, c, d)
    decreases |s|
  {
    match Find([c], s)
    case None =>
      ReplaceNoChar(s, c, d);
    case Some(i) =>
      ReplaceAtFirst(s, c, d, i);
      ReplaceChar(s[i + 1..], c, d);
  }

  /** Without a `c` in the text, neither replacing nor substituting changes it. */
  lemma ReplaceNoChar(s: string, c: char, d: char)
    requires Find([c], s).None?
    ensures Replace(s, [c], [d]) == s && SubstChar(s, c, d) == s
  {
    FoundChar(s, c, |s|);
    assert Split(s, [c]) == [s];
  }

  /** Where the first `c` stands, both replacing and substituting put `d` and carry on with the rest. */
  lemma ReplaceAtFirst(s: string, c: char, d: char, i: nat)
    requires Find([c], s) == Some(i)
    ensures i < |s|
    ensures Replace(s, [c], [d]) == s[..i] + [d] + Replace(s[i + 1..], [c], [d])
    ensures SubstChar(s, c, d) == s[..i] + [d] + SubstChar(s[i + 1..], c, d)
  {
    FoundChar(s, c, i);
    var head, rest := s[..i], s[i + 1..];
    var parts := Split(s, [c]);
    assert parts == [head] + Split(rest, [c]);
    JoinCons(head, Split(rest, [c]), [d]);
    SubstAtFirst(s, c, d, i);
  }

  /** Joining a part in front of at least one more puts the separator between them. */
  lemma JoinCons(head: string, tail: seq<string>, sep: string)
    requires |tail| >= 1
    ensures Join([head] + tail, sep) == head + sep + Join(tail, sep)
  {
    assert ([head] + tail)[1..] == tail;
  }

  lemma SubstAtFirst(s: string, c: char, d: char, i: nat)
    requires i < |s| && s[i] == c && forall j :: 0 <= j < i ==> s[j] != c
    ensures SubstChar(s, c, d) == s[..i] + [d] + SubstChar(s[i + 1..], c, d)
  {
    var head, rest := s[..i], s[i + 1..];
    assert SubstChar(head, c, d) == head;
    assert s == head + [c] + rest;
    SubstCharAround(head, c, rest, d);
  }

  /** Up to where `Find` stops, no position holds `c`; where it stops, one does. */
  lemma FoundChar(s: string, c: char, i: nat)
    requires Find([c], s) == Some(i) || (Find([c], s).None? && i == |s|)
    ensures i <= |s| && forall j :: 0 <= j < i ==> s[j] != c
    ensures i < |s| ==> s[i] == c
  {
    forall j | 0 <= j < i ensures s[j] != c {
      assert !OccursAt([c], s, j);
      OccursAtChar(s, c, j);
    }
    if i < |s| {
      OccursAtChar(s, c, i);
    }
  }

  /** A one-character needle occurs at a position exactly when that position holds it. */
  lemma OccursAtChar(s: string, c: char, j: nat)
    requires j < |s|
    ensures OccursAt([c], s, j) <==> s[j] == c
  {
    assert s[j..j + 1] == [s[j]];
  }

  lemma SubstCharAround(a: string, c: char, b: string, d: char)
    ensures SubstChar(a + [c] + b, c, d) == SubstChar(a, c, d) + [d] + SubstChar(b, c, d)
  {
    var l, r := SubstChar(a + [c] + b, c, d), SubstChar(a, c, d) + [d] + SubstChar(b, c, d);
    assert forall j :: 0 <= j < |l| ==> l[j] == r[j];
  }

  // ---------------------------------------------------------------- strip / slices

  function TrimLeft(s: string): (r: string)
    ensures |r| <= |s| && r == s[|s| - |r|..]
    ensures r == [] || !IsSpace(r[0])
    ensures forall k :: 0 <= k < |s| - |r| ==> IsSpace(s[k])
  {
    if |s| > 0 && IsSpace(s[0]) then TrimLeft(s[1..]) else s
  }

  function TrimRight(s: string): (r: string)
    ensures |r| <= |s| && r == s[..|r|]
    ensures r == [] || !IsSpace(r[|r| - 1])
    ensures forall k :: |r| <= k < |s| ==> IsSpace(s[k])
  {
    if |s| > 0 && IsSpace(s[|s| - 1]) then TrimRight(s[..|s| - 1]) else s
  }

  /** `str.strip()`. */
  function Strip(s: string): string
  {
    TrimRight(TrimLeft(s))
  }

  /** A text without white space at either end strips to itself. */
  lemma StripKeeps(s: string)
    requires |s| >= 1 && !IsSpace(s[0]) && !IsSpace(s[|s| - 1])
    ensures Strip(s) == s
  {
  }

  /** A NO-BREAK SPACE in front is white space to `str.strip()` too. */
  lemma StripNoBreakSpace()
    ensures Strip([0xA0 as char] + "abc") == "abc"
  {
    var s := [0xA0 as char] + "abc";
    assert IsSpace(s[0]) && s[1..] == "abc";
    StripKeeps("abc");
  }

  /** Python's `s[1:-1]`, which is empty for texts shorter than two. */
  function DropEnds(s: string): (r: string)
    ensures |s| >= 2 ==> r == s[1..|s| - 1]
    ensures |s| < 2 ==> r == ""
  {
    if |s| < 2 then "" else s[1..|s| - 1]
  }

  /** Python's `s[:-1]`, which is empty for the empty text. */
  function DropLast(s: string): (r: string)
    ensures |s| >= 1 ==> r == s[..|s| - 1]
    ensures |s| == 0 ==> r == ""
  {
    if |s| == 0 then "" else s[..|s| - 1]
  }

  /** Python's `s[:n]`. */
  function Prefix(s: string, n: nat): (r: string)
    ensures |r| == if |s| < n then |s| else n
    ensures IsPrefix(r, s)
  {
    if |s| <= n then s else s[..n]
  }

  // ---------------------------------------------------------------- integers

  function DigitChar(d: nat): char
    requires d < 10
  {
    ('0' as int + d) as char
  }

  function DigitValue(c: char): nat
    requires IsDigit(c)
  {
    c as int - '0' as int
  }

  /** The decimal digits of a natural number, most significant first. */
  function NatToString(n: nat): (r: string)
    ensures |r| >= 1
    ensures forall i :: 0 <= i < |r| ==> IsDigit(r[i])
    decreases n
  {
    if n < 10 then [DigitChar(n)] else NatToString(n / 10) + [DigitChar(n % 10)]
  }

  /** `str(n)` for an integer. */
  function IntToString(n: int): (r: string)
    ensures |r| >= 1 && forall i :: 0 <= i < |r| ==> IsDigit(r[i]) || r[i] == '-'
  {
    if n < 0 then "-" + NatToString(-n) else NatToString(n)
  }

  /** `str(j)`, equally `'{}'.format(j)`, for the scalar JSON values; lists and mappings print in a form not modelled. */
  function PyStr(j: Json): Option<string>
  {
    match j
    case JStr(s) => Some(s)
    case JInt(n) => Some(IntToString(n))
    case JBool(b) => Some(if b then "True" else "False")
    case JNull => Some("None")
    case _ => None
  }

  /** `'{:03d}'.format(n)` for a natural number: zero-padded to at least three digits. */
  function Pad3(n: nat): (r: string)
    ensures |r| >= 3 && forall i :: 0 <= i < |r| ==> IsDigit(r[i])
    ensures |r| == 3 || r[0] != '0'
  {
    var d := NatToString(n);
    NatToStringLead(n);
    if |d| == 1 then "00" + d else if |d| == 2 then "0" + d else d
  }

  /** `str(n)` starts with `0` only for zero itself. */
  lemma {:induction false} NatToStringLead(n: nat)
    ensures n >= 1 ==> NatToString(n)[0] != '0'
    decreases n
  {
    if n >= 10 {
      NatToStringLead(n / 10);
    }
  }

  /** The value of a non-empty run of decimal digits. */
  function DigitsValue(s: string): nat
    requires forall i :: 0 <= i < |s| ==> IsDigit(s[i])
    decreases |s|
  {
    if |s| == 0 then 0 else DigitsValue(s[..|s| - 1]) * 10 + DigitValue(s[|s| - 1])
  }

  predicate AllDigits(s: string)
  {
    |s| > 0 && forall i :: 0 <= i < |s| ==> IsDigit(s[i])
  }

  /** `int(s)`: surrounding white space, an optional sign, then decimal digits. */
  function ParseInt(s: string): Option<int>
  {
    ParseSigned(Strip(s))
  }

  /** An optional sign followed by decimal digits, nothing else. */
  function ParseSigned(t: string): Option<int>
  {
    if |t| > 0 && (t[0] == '-' || t[0] == '+') then
      if AllDigits(t[1..]) then
        var v: int := DigitsValue(t[1..]);
        Some(if t[0] == '-' then -v else v)
      else None
    else if AllDigits(t) then Some(DigitsValue(t) as int)
    else None
  }

  lemma {:induction false} DigitsOfNat(n: nat)
    ensures AllDigits(NatToString(n)) && DigitsValue(NatToString(n)) == n
    decreases n
  {
    if n >= 10 {
      DigitsOfNat(n / 10);
      var s := NatToString(n);
      assert s[..|s| - 1] == NatToString(n / 10);
    }
  }

  lemma ParseDigits(d: string)
    requires AllDigits(d)
    ensures ParseInt(d) == Some(DigitsValue(d) as int)
  {
    assert TrimLeft(d) == d;
    assert TrimRight(d) == d;
    assert Strip(d) == d;
    assert !(d[0] == '-' || d[0] == '+');
  }

  lemma ParseNegativeToString(n: int)
    requires n < 0
    ensures ParseInt(IntToString(n)) == Some(n)
  {
    var d := NatToString(-n);
    DigitsOfNat(-n);
    assert IntToString(n) == "-" + d;
    ParseMinusDigits(d, -n);
  }

  /** A minus sign followed by digits parses to the negated value. */
  lemma ParseMinusDigits(d: string, v: nat)
    requires AllDigits(d) && DigitsValue(d) == v
    ensures ParseInt("-" + d) == Some(-(v as int))
  {
    var s := "-" + d;
    assert s[1..] == d;
    assert Strip(s) == s by {
      assert s[|s| - 1] == d[|d| - 1];
      StripKeeps(s);
    }
    assert s[0] == '-' && AllDigits(s[1..]);
    assert ParseSigned(s) == Some(-(DigitsValue(s[1..]) as int));
  }


  lemma ParseNatToString(n: nat)
    ensures ParseInt(IntToString(n)) == Some(n)
  {
    var d := NatToString(n);
    DigitsOfNat(n);
    assert IntToString(n) == d;
    ParseDigits(d);
    assert ParseInt(d) == Some(n);
  }

  /** `int(str(n)) == n`. */
  lemma ParseIntToString(n: int)
    ensures ParseInt(IntToString(n)) == Some(n)
  {
    if n < 0 { ParseNegativeToString(n); } else { ParseNatToString(n); }
  }

  /** Distinct numbers have distinct decimal texts. */
  lemma NatToStringInjective(m: nat, n: nat)
    requires NatToString(m) == NatToString(n)
    ensures m == n
  {
    DigitsOfNat(m);
    DigitsOfNat(n);
  }

  /** A leading zero does not change the value of a digit run. */
  lemma {:induction false} LeadingZero(d: string)
    requires forall i :: 0 <= i < |d| ==> IsDigit(d[i])
    ensures DigitsValue("0" + d) == DigitsValue(d)
    decreases |d|
  {
    if |d| > 0 {
      var z := "0" + d;
      assert z[..|z| - 1] == "0" + d[..|d| - 1];
      LeadingZero(d[..|d| - 1]);
    }
  }

  /** Reading `'{:03d}'.format(n)` back as digits gives `n`. */
  lemma Pad3Value(n: nat)
    ensures AllDigits(Pad3(n)) && DigitsValue(Pad3(n)) == n
  {
    var d := NatToString(n);
    DigitsOfNat(n);
    LeadingZero(d);
    LeadingZero("0" + d);
    assert "00" + d == "0" + ("0" + d);
  }

  /** `'{:03d}'` never gives two numbers the same text. */
  lemma Pad3Injective(m: nat, n: nat)
    requires Pad3(m) == Pad3(n)
    ensures m == n
  {
    Pad3Value(m);
    Pad3Value(n);
  }

  lemma IntToStringInjective(m: int, n: int)
    requires IntToString(m) == IntToString(n)
    ensures m == n
  {
    ParseIntToString(m);
    ParseIntToString(n);
  }

  /** Two texts joined by `_` are read back when neither holds a `_`. */
  lemma UnderscoreJoinInjective(a1: string, s1: string, a2: string, s2: string)
    requires '_' !in a1 && '_' !in s1 && '_' !in a2 && '_' !in s2
    requires a1 + "_" + s1 == a2 + "_" + s2
    ensures a1 == a2 && s1 == s2
  {
    SplitJoin([a1, s1], "_");
    SplitJoin([a2, s2], "_");
    assert Join([a1, s1], "_") == a1 + "_" + s1;
    assert Join([a2, s2], "_") == a2 + "_" + s2;
  }

  // ---------------------------------------------------------------- dictionaries built in a loop

  /** `d[k] = v` for each pair in turn, starting from `{}`: a later pair overwrites an earlier one. */
  function IndexOf<K, V>(entries: seq<(K, V)>): map<K, V>
  {
    if |entries| == 0 then map[]
    else IndexOf(entries[..|entries| - 1])[entries[|entries| - 1].0 := entries[|entries| - 1].1]
  }

  /** The keys of the dictionary are exactly the keys of the pairs. */
  lemma {:induction false} IndexOfKeys<K, V>(entries: seq<(K, V)>, k: K)
    ensures k in IndexOf(entries) <==> exists i :: 0 <= i < |entries| && entries[i].0 == k
    decreases |entries|
  {
    if |entries| > 0 {
      var init := entries[..|entries| - 1];
      IndexOfKeys(init, k);
      if exists i :: 0 <= i < |init| && init[i].0 == k {
        var i :| 0 <= i < |init| && init[i].0 == k;
        assert entries[i] == init[i];
      }
      if exists i :: 0 <= i < |entries| - 1 && entries[i].0 == k {
        var i :| 0 <= i < |entries| - 1 && entries[i].0 == k;
        assert init[i] == entries[i];
      }
    }
  }

  /** A key holds the value of the last pair carrying it. */
  lemma {:induction false} IndexOfLastWins<K, V>(entries: seq<(K, V)>, i: nat)
    requires i < |entries|
    requires forall j :: i < j < |entries| ==> entries[j].0 != entries[i].0
    ensures entries[i].0 in IndexOf(entries) && IndexOf(entries)[entries[i].0] == entries[i].1
    decreases |entries|
  {
    var n := |entries| - 1;
    if i < n {
      var init := entries[..n];
      assert init[i] == entries[i];
      assert forall j :: i < j < |init| ==> init[j] == entries[j];
      IndexOfLastWins(init, i);
    }
  }

  /** Filling from two runs of pairs: the second run's keys overwrite the first's. */
  lemma {:induction false} IndexOfAppend<K, V>(a: seq<(K, V)>, b: seq<(K, V)>)
    ensures IndexOf(a + b) == IndexOf(a) + IndexOf(b)
    decreases |b|
  {
    if |b| == 0 {
      assert a + b == a;
    } else {
      var b0 := b[..|b| - 1];
      assert (a + b)[..|a + b| - 1] == a + b0;
      IndexOfAppend(a, b0);
    }
  }

  /** Every value of the dictionary is the value of the last pair carrying its key. */
  lemma {:induction false} IndexOfValue<K, V>(entries: seq<(K, V)>, k: K)
    requires k in IndexOf(entries)
    ensures exists i :: 0 <= i < |entries| && entries[i] == (k, IndexOf(entries)[k]) && forall j :: i < j < |entries| ==> entries[j].0 != k
    decreases |entries|
  {
    var n := |entries| - 1;
    var init := entries[..n];
    if entries[n].0 != k {
      IndexOfValue(init, k);
      var i :| 0 <= i < |init| && init[i] == (k, IndexOf(init)[k]) && forall j :: i < j < |init| ==> init[j].0 != k;
      assert entries[i] == init[i];
      assert forall j :: i < j < |entries| ==> entries[j].0 != k by {
        forall j | i < j < |entries| ensures entries[j].0 != k {
          if j < n { assert entries[j] == init[j]; }
        }
      }
    } else {
      assert entries[n] == (k, IndexOf(entries)[k]);
    }
  }
}
