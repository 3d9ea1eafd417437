/** Shared vocabulary: the error taxonomy of `src/error.rs`, result/option
    wrappers and the handful of string operations the parsers rely on. */
module Common {

  /** The engine's error kinds; the message text is kept as a payload. */
  datatype RuneError =
    | ContainerErr(msg: string)
    | ContainerNotFound(msg: string)
    | ContainerExists(msg: string)
    | ContainerAlreadyRunning(msg: string)
    | ContainerNotRunning(msg: string)
    | ImageErr(msg: string)
    | ImageNotFound(msg: string)
    | ImageExists(msg: string)
    | BuildErr(msg: string)
    | DockerfileParse(line: nat, msg: string)
    | NetworkErr(msg: string)
    | NetworkNotFound(msg: string)
    | VolumeErr(msg: string)
    | VolumeNotFound(msg: string)
    | ComposeErr(msg: string)
    | ComposeParse(msg: string)
    | SwarmErr(msg: string)
    | ServiceErr(msg: string)
    | ServiceNotFound(msg: string)
    | NodeErr(msg: string)
    | NodeNotFound(msg: string)
    | InvalidConfig(msg: string)
    | PermissionDenied(msg: string)
    | Internal(msg: string)

  datatype Result<+T> = Ok(value: T) | Err(error: RuneError)

  datatype Option<+T> = None | Some(value: T)

  /** `Ok(())` / `Err(e)` of an operation that returns nothing. */
  datatype Outcome = Pass | Fail(error: RuneError)

  /** The elements of a sequence, as a set. */
  function Elems<T>(s: seq<T>): set<T>
  {
    set x | x in s
  }

  lemma ElemsAppend<T>(s: seq<T>, x: T)
    ensures Elems(s + [x]) == Elems(s) + {x}
  {
  }

  /** Concatenation is associative. */
  lemma ConcatAssoc<T>(a: seq<T>, b: seq<T>, c: seq<T>)
    ensures (a + b) + c == a + (b + c)
  {
  }

  /** A non-empty sequence is its head followed by its tail. */
  lemma ConsConcat<T>(a: seq<T>, t: seq<T>)
    requires a != []
    ensures [a[0]] + (a[1..] + t) == a + t
  {
    assert a == [a[0]] + a[1..];
  }

  /** Appending a new element keeps a sequence free of repeats. */
  lemma AppendDistinct<T>(s: seq<T>, x: T)
    requires Distinct(s) && x !in s
    ensures Distinct(s + [x]) && Elems(s + [x]) == Elems(s) + {x}
  {
  }

  lemma PrefixElems<T>(a: seq<T>, b: seq<T>)
    requires a <= b
    ensures Elems(a) <= Elems(b)
  {
    forall x | x in a ensures x in b {
      var i :| 0 <= i < |a| && a[i] == x;
      assert b[i] == x;
    }
  }

  lemma {:induction false} ElemsCard<T>(s: seq<T>)
    ensures |Elems(s)| <= |s|
    decreases |s|
  {
    if s != [] {
      ElemsCard(s[..|s| - 1]);
      assert s == s[..|s| - 1] + [s[|s| - 1]];
      ElemsAppend(s[..|s| - 1], s[|s| - 1]);
    }
  }

  /** No element occurs twice. */
  predicate Distinct<T(==)>(s: seq<T>)
  {
    forall i, j :: 0 <= i < j < |s| ==> s[i] != s[j]
  }

  lemma {:induction false} DistinctCard<T>(s: seq<T>)
    requires Distinct(s)
    ensures |Elems(s)| == |s|
    decreases |s|
  {
    if s != [] {
      var t := s[..|s| - 1];
      assert s == t + [s[|s| - 1]];
      assert Distinct(t);
      DistinctCard(t);
      ElemsAppend(t, s[|s| - 1]);
      assert s[|s| - 1] !in Elems(t);
    }
  }

  /** A repeat-free sequence holds each value at most once. */
  lemma {:induction false} DistinctMultiplicity<T>(s: seq<T>, x: T)
    requires Distinct(s)
    ensures multiset(s)[x] <= 1
    decreases |s|
  {
    if s != [] {
      assert s == [s[0]] + s[1..];
      assert Distinct(s[1..]);
      DistinctMultiplicity(s[1..], x);
      if s[0] == x {
        assert x !in s[1..];
      }
    }
  }

  /** A permutation of a repeat-free sequence is repeat-free. */
  lemma PermutationDistinct<T>(s: seq<T>, t: seq<T>)
    requires Distinct(s) && multiset(s) == multiset(t)
    ensures Distinct(t)
  {
    forall i, j | 0 <= i < j < |t|
      ensures t[i] != t[j]
    {
      if t[i] == t[j] {
        var x := t[i];
        assert t == t[..j] + [t[j]] + t[j + 1..];
        assert x in t[..j];
        assert multiset(t)[x] >= 2;
        DistinctMultiplicity(s, x);
      }
    }
  }

  // ---------------------------------------------------------------------
  // Strings

  predicate IsPrefix(p: string, s: string)
  {
    |p| <= |s| && s[..|p|] == p
  }

  /** Rust's `strip_prefix(p).unwrap_or(s)`. */
  function StripPrefix(s: string, p: string): (r: string)
    ensures IsPrefix(p, s) ==> p + r == s
    ensures !IsPrefix(p, s) ==> r == s
  {
    if IsPrefix(p, s) then
      assert s == s[..|p|] + s[|p|..];
      s[|p|..]
    else s
  }

  lemma StripPrefixConcat(p: string, t: string)
    ensures StripPrefix(p + t, p) == t
  {
    assert (p + t)[..|p|] == p;
    assert (p + t)[|p|..] == t;
  }

  lemma PrefixTrans(p: string, q: string, s: string)
    requires IsPrefix(p, q) && IsPrefix(q, s)
    ensures IsPrefix(p, s)
  {
    assert s[..|p|] == s[..|q|][..|p|];
  }

  predicate IsSuffix(p: string, s: string)
  {
    |p| <= |s| && s[|s| - |p|..] == p
  }

  /** Index of the first occurrence of `c` in `s`, if any. */
  function FindChar(s: string, c: char): (r: Option<nat>)
    ensures r.Some? ==> r.value < |s| && s[r.value] == c && c !in s[..r.value]
    ensures r.None? ==> c !in s
  {
    if |s| == 0 then None
    else if s[0] == c then Some(0)
    else match FindChar(s[1..], c)
      case None => None
      case Some(i) => assert s[..i + 1] == [s[0]] + s[1..][..i]; Some(i + 1)
  }

  /** `p` occurs in `s` at position `j`. */
  predicate MatchAt(s: string, p: string, j: nat)
  {
    j + |p| <= |s| && s[j..j + |p|] == p
  }

  /** Index of the first occurrence of the non-empty pattern `p` in `s`. */
  function FindStr(s: string, p: string): (r: Option<nat>)
    requires |p| > 0
    ensures r.Some? ==> MatchAt(s, p, r.value)
    ensures r.Some? ==> forall j: nat :: j < r.value ==> !MatchAt(s, p, j)
    ensures r.None? ==> forall j: nat :: !MatchAt(s, p, j)
  {
    FindStrFrom(s, p, 0)
  }

  /** First occurrence of `p` in `s` at or after position `k`. */
  function FindStrFrom(s: string, p: string, k: nat): (r: Option<nat>)
    requires |p| > 0
    ensures r.Some? ==> k <= r.value && MatchAt(s, p, r.value)
    ensures r.Some? ==> forall j: nat :: k <= j < r.value ==> !MatchAt(s, p, j)
    ensures r.None? ==> forall j: nat :: k <= j ==> !MatchAt(s, p, j)
    decreases |s| - k
  {
    if k + |p| > |s| then None
    else if s[k..k + |p|] == p then Some(k)
    else FindStrFrom(s, p, k + 1)
  }

  predicate Contains(s: string, p: string)
  {
    |p| == 0 || FindStr(s, p).Some?
  }

  /** Split `s` on every occurrence of `c` (Rust's `str::split` with a char). */
  function Split(s: string, c: char): (r: seq<string>)
    ensures |r| >= 1
    ensures forall i :: 0 <= i < |r| ==> c !in r[i]
    ensures Join(r, c) == s
    decreases |s|
  {
    match FindChar(s, c)
    case None => [s]
    case Some(i) =>
      var rest := Split(s[i + 1..], c);
      assert s == s[..i] + [c] + s[i + 1..];
      [s[..i]] + rest
  }

  lemma SplitWithout(s: string, c: char)
    requires c !in s
    ensures Split(s, c) == [s]
  {
  }

  /** Join pieces with a separator character. */
  function Join(parts: seq<string>, c: char): string
  {
    if |parts| == 0 then ""
    else if |parts| == 1 then parts[0]
    else parts[0] + [c] + Join(parts[1..], c)
  }

  /** A character other than the separator is absent from the joined text
      exactly when it is absent from every piece. */
  lemma {:induction false} NotInJoin(parts: seq<string>, c: char, x: char)
    requires x != c
    ensures x !in Join(parts, c) <==> forall i :: 0 <= i < |parts| ==> x !in parts[i]
    decreases |parts|
  {
    if |parts| > 1 {
      NotInJoin(parts[1..], c, x);
      assert Join(parts, c) == parts[0] + [c] + Join(parts[1..], c);
      assert forall i :: 1 <= i < |parts| ==> parts[i] == parts[1..][i - 1];
    }
  }

  /** Splitting undoes joining, for pieces free of the separator. */
  lemma {:induction false} SplitJoin(parts: seq<string>, c: char)
    requires |parts| >= 1
    requires forall i :: 0 <= i < |parts| ==> c !in parts[i]
    ensures Split(Join(parts, c), c) == parts
    decreases |parts|
  {
    if |parts| == 1 {
      SplitWithout(parts[0], c);
    } else {
      SplitJoinStep(parts, c);
      SplitJoin(parts[1..], c);
      assert parts == [parts[0]] + parts[1..];
    }
  }

  /** Splitting a join of two or more pieces peels off the first piece. */
  lemma SplitJoinStep(parts: seq<string>, c: char)
    requires |parts| >= 2 && c !in parts[0]
    ensures Split(Join(parts, c), c) == [parts[0]] + Split(Join(parts[1..], c), c)
  {
    var s := Join(parts, c);
    var n := |parts[0]|;
    assert s == parts[0] + [c] + Join(parts[1..], c);
    assert s[..n] == parts[0] && s[n] == c;
    FindCharAt(s, c, n);
    assert s[n + 1..] == Join(parts[1..], c);
  }

  /** Two pieces free of the separator split back apart. */
  lemma SplitPair(a: string, b: string, c: char)
    requires c !in a && c !in b
    ensures Split(a + [c] + b, c) == [a, b]
  {
    SplitJoin([a, b], c);
    assert Join([a, b], c) == a + [c] + b;
  }

  lemma FindCharAt(s: string, c: char, n: nat)
    requires n < |s| && s[n] == c && c !in s[..n]
    ensures FindChar(s, c) == Some(n)
  {
  }

  /** Join pieces with a separator string. */
  function JoinStr(parts: seq<string>, sep: string): string
  {
    if |parts| == 0 then ""
    else if |parts| == 1 then parts[0]
    else parts[0] + sep + JoinStr(parts[1..], sep)
  }

  /** Unicode White_Space, the set Rust's `char::is_whitespace` tests: tab,
      line feed, vertical tab, form feed, carriage return, space, next line,
      no-break space, ogham space mark, the spaces U+2000 to U+200A, line
      and paragraph separators, narrow no-break space, medium mathematical
      space and ideographic space. */
  predicate IsSpace(c: char)
  {
    || '\t' <= c <= '\r'
    || c == ' ' || c == '\U{0085}' || c == '\U{00A0}' || c == '\U{1680}'
    || '\U{2000}' <= c <= '\U{200A}'
    || c == '\U{2028}' || c == '\U{2029}' || c == '\U{202F}' || c == '\U{205F}' || c == '\U{3000}'
  }

  function TrimStart(s: string): (r: string)
    ensures |r| <= |s|
    ensures |r| > 0 ==> !IsSpace(r[0])
    decreases |s|
  {
    if |s| > 0 && IsSpace(s[0]) then TrimStart(s[1..]) else s
  }

  function TrimEnd(s: string): (r: string)
    ensures IsPrefix(r, s)
    ensures |r| > 0 ==> !IsSpace(r[|r| - 1])
    decreases |s|
  {
    if |s| > 0 && IsSpace(s[|s| - 1]) then TrimEnd(s[..|s| - 1]) else s
  }

  function Trim(s: string): (r: string)
    ensures |r| <= |s|
    ensures |r| > 0 ==> !IsSpace(r[0]) && !IsSpace(r[|r| - 1])
  {
    TrimEnd(TrimStart(s))
  }

  lemma {:induction false} TrimStartSuffix(s: string)
    ensures IsSuffix(TrimStart(s), s)
    decreases |s|
  {
    if |s| > 0 && IsSpace(s[0]) {
      TrimStartSuffix(s[1..]);
    }
  }

  /** Every character of `Trim(s)` is a character of `s`. */
  lemma TrimChars(s: string)
    ensures forall c :: c in Trim(s) ==> c in s
  {
    var t := TrimStart(s);
    TrimStartSuffix(s);
    forall c | c in Trim(s)
      ensures c in s
    {
      var i :| 0 <= i < |Trim(s)| && Trim(s)[i] == c;
      assert t[i] == c;
      assert s[|s| - |t| + i] == c;
    }
  }

  lemma TrimUnchanged(s: string)
    requires |s| > 0 ==> !IsSpace(s[0]) && !IsSpace(s[|s| - 1])
    ensures Trim(s) == s
  {
  }

  /** Strips every leading and trailing `c` (Rust's `trim_matches` with a char). */
  function TrimMatches(s: string, c: char): (r: string)
    ensures |r| <= |s|
    ensures |r| > 0 ==> r[0] != c && r[|r| - 1] != c
    decreases |s|
  {
    if |s| > 0 && s[0] == c then TrimMatches(s[1..], c)
    else if |s| > 0 && s[|s| - 1] == c then TrimMatches(s[..|s| - 1], c)
    else s
  }

  /** Rust's `splitn(2, char::is_whitespace)`: the text before the first
      whitespace character and, when there is one, the text after it. */
  function SplitOnceSpace(s: string): (r: (string, Option<string>))
    ensures forall j :: 0 <= j < |r.0| ==> !IsSpace(r.0[j])
    ensures r.1.None? ==> r.0 == s
    ensures r.1.Some? ==> |r.0| < |s| && IsSpace(s[|r.0|]) && s == r.0 + [s[|r.0|]] + r.1.value
  {
    var w := TakeWord(s);
    if |w| == |s| then (s, None) else (w, Some(s[|w| + 1..]))
  }

  /** Rust's `splitn(2, c)`: the text before the first `c` and, when there
      is one, the text after it. */
  function SplitOnce(s: string, c: char): (r: (string, Option<string>))
    ensures c !in r.0
    ensures r.1.None? ==> r.0 == s
    ensures r.1.Some? ==> s == r.0 + [c] + r.1.value
  {
    match FindChar(s, c)
    case None => (s, None)
    case Some(i) => (s[..i], Some(s[i + 1..]))
  }

  /** Rust's `str::lines`: split at '\n', the '\r' of a "\r\n" ending
      removed, and no final empty line after a closing '\n'. A last line
      without '\n' keeps a trailing '\r'. */
  function Lines(s: string): (r: seq<string>)
  {
    var parts := Split(s, '\n');
    var kept := if parts[|parts| - 1] == "" then parts[..|parts| - 1] else parts;
    seq(|kept|, i requires 0 <= i < |kept| =>
      if i < |parts| - 1 && |kept[i]| > 0 && kept[i][|kept[i]| - 1] == '\r' then kept[i][..|kept[i]| - 1] else kept[i])
  }

  /** Whitespace-separated tokens (Rust's `split_whitespace`). */
  function Words(s: string): (r: seq<string>)
    ensures forall i :: 0 <= i < |r| ==> |r[i]| > 0
    ensures forall i, j :: 0 <= i < |r| && 0 <= j < |r[i]| ==> !IsSpace(r[i][j])
    decreases |s|
  {
    var t := TrimStart(s);
    if |t| == 0 then []
    else
      var w := TakeWord(t);
      [w] + Words(t[|w|..])
  }

  /** The longest prefix of `s` without whitespace. */
  function TakeWord(s: string): (r: string)
    ensures IsPrefix(r, s)
    ensures forall j :: 0 <= j < |r| ==> !IsSpace(r[j])
    ensures |r| < |s| ==> IsSpace(s[|r|])
    ensures |s| > 0 && !IsSpace(s[0]) ==> |r| > 0
  {
    if |s| == 0 || IsSpace(s[0]) then "" else [s[0]] + TakeWord(s[1..])
  }

  /** Upper-cases the ASCII letters and keeps every other character. */
  function ToUpperChar(c: char): char
  {
    if 'a' <= c <= 'z' then (c as int - 32) as char else c
  }

  function ToLowerChar(c: char): char
  {
    if 'A' <= c <= 'Z' then (c as int + 32) as char else c
  }

  function ToUpper(s: string): (r: string)
    ensures |r| == |s|
    ensures forall i :: 0 <= i < |s| ==> r[i] == ToUpperChar(s[i])
  {
    if |s| == 0 then "" else [ToUpperChar(s[0])] + ToUpper(s[1..])
  }

  function ToLower(s: string): (r: string)
    ensures |r| == |s|
    ensures forall i :: 0 <= i < |s| ==> r[i] == ToLowerChar(s[i])
  {
    if |s| == 0 then "" else [ToLowerChar(s[0])] + ToLower(s[1..])
  }

  predicate IsDigit(c: char)
  {
    '0' <= c <= '9'
  }

  predicate AllDigits(s: string)
  {
    forall i :: 0 <= i < |s| ==> IsDigit(s[i])
  }

  /** Value of a string of decimal digits. */
  function DigitsValue(s: string): nat
    requires AllDigits(s)
  {
    if |s| == 0 then 0 else DigitsValue(s[..|s| - 1]) * 10 + (s[|s| - 1] as int - '0' as int)
  }

  /** Rust's `str::parse::<uN>()` with `bound == 2^N`: decimal digits only,
      at least one, and the value below the bound. */
  function ParseNat(s: string, bound: nat): (r: Option<nat>)
    ensures r.Some? ==> r.value < bound && |s| > 0 && AllDigits(s) && r.value == DigitsValue(s)
    ensures r.None? ==> |s| == 0 || !AllDigits(s) || DigitsValue(s) >= bound
  {
    if |s| > 0 && AllDigits(s) && DigitsValue(s) < bound then Some(DigitsValue(s)) else None
  }

  /** Rust's `str::parse` for an unsigned integer type with `bound == 2^N`:
      an optional '+' followed by at least one decimal digit, the value below
      the bound. */
  function ParseUint(s: string, bound: nat): (r: Option<nat>)
    ensures r.Some? ==> r.value < bound
    ensures AllDigits(s) && |s| > 0 && DigitsValue(s) < bound ==> r == Some(DigitsValue(s))
    ensures |s| == 0 ==> r.None?
  {
    if |s| > 0 && s[0] == '+' then ParseNat(s[1..], bound) else ParseNat(s, bound)
  }

  /** Decimal rendering of a natural number (Rust's `to_string`). */
  function NatToString(n: nat): (r: string)
    ensures |r| > 0 && AllDigits(r)
    ensures DigitsValue(r) == n
  {
    if n < 10 then [('0' as int + n) as char]
    else
      var r := NatToString(n / 10) + [('0' as int + n % 10) as char];
      assert r[..|r| - 1] == NatToString(n / 10);
      r
  }

  /** Parsing the decimal rendering of a number below the bound gives the
      number back. */
  lemma ParseNatToString(n: nat, bound: nat)
    requires n < bound
    ensures ParseUint(NatToString(n), bound) == Some(n)
  {
    var s := NatToString(n);
    assert IsDigit(s[0]);
  }

  /** Enumerates a set in some order (a directory listing, a hash map's
      iteration). */
  method Enumerate<T>(s: set<T>) returns (r: seq<T>)
    ensures Elems(r) == s && Distinct(r)
  {
    r := [];
    var todo := s;
    while todo != {}
      invariant todo <= s
      invariant Elems(r) == s - todo
      invariant Distinct(r)
      decreases |todo|
    {
      var x :| x in todo;
      ElemsAppend(r, x);
      r := r + [x];
      todo := todo - {x};
    }
  }

  /** The elements of `s` that satisfy `keep`, in order. */
  function Filter<T>(s: seq<T>, keep: T -> bool): (r: seq<T>)
    ensures |r| <= |s|
    ensures forall i :: 0 <= i < |r| ==> r[i] in s && keep(r[i])
    ensures forall i :: 0 <= i < |s| && keep(s[i]) ==> s[i] in r
    decreases |s|
  {
    if s == [] then []
    else
      var last := s[|s| - 1];
      assert s == s[..|s| - 1] + [last];
      Filter(s[..|s| - 1], keep) + (if keep(last) then [last] else [])
  }

  lemma FilterKeeps<T>(s: seq<T>, keep: T -> bool, x: T)
    requires x in s && keep(x)
    ensures x in Filter(s, keep)
  {
    var i :| 0 <= i < |s| && s[i] == x;
  }

  /** Filtering with a test every element passes changes nothing. */
  lemma {:induction false} FilterAll<T>(s: seq<T>, keep: T -> bool)
    requires forall i :: 0 <= i < |s| ==> keep(s[i])
    ensures Filter(s, keep) == s
    decreases |s|
  {
    if s != [] {
      FilterAll(s[..|s| - 1], keep);
      assert s == s[..|s| - 1] + [s[|s| - 1]];
    }
  }

  /** Three filters in a row keep what passes all three. */
  lemma FilterThrice<T>(a: seq<T>, p: T -> bool, q: T -> bool, w: T -> bool, x: T)
    ensures x in Filter(Filter(Filter(a, p), q), w) <==> x in a && p(x) && q(x) && w(x)
  {
    if x in a && p(x) && q(x) && w(x) {
      FilterKeeps(a, p, x);
      FilterKeeps(Filter(a, p), q, x);
      FilterKeeps(Filter(Filter(a, p), q), w, x);
    }
    if x in Filter(Filter(Filter(a, p), q), w) {
      var k :| 0 <= k < |Filter(Filter(Filter(a, p), q), w)| && Filter(Filter(Filter(a, p), q), w)[k] == x;
      var j :| 0 <= j < |Filter(Filter(a, p), q)| && Filter(Filter(a, p), q)[j] == x;
      var i :| 0 <= i < |Filter(a, p)| && Filter(a, p)[i] == x;
    }
  }

  /** `Vec::retain`: keeps, in order, the elements that satisfy `keep`. */
  method Retain<T>(s: seq<T>, keep: T -> bool) returns (r: seq<T>)
    ensures r == Filter(s, keep)
  {
    r := [];
    var i := 0;
    while i < |s|
      invariant 0 <= i <= |s|
      invariant r == Filter(s[..i], keep)
    {
      assert s[..i + 1][..i] == s[..i];
      if keep(s[i]) {
        r := r + [s[i]];
      }
      i := i + 1;
    }
    assert s[..i] == s;
  }

  /** An 8-bit byte, and byte strings (Rust's `u8`, `Vec<u8>`). */
  newtype byte = b: int | 0 <= b < 256
  type Bytes = seq<byte>

  const U16: nat := 0x1_0000
  const U32: nat := 0x1_0000_0000
  const U64: nat := 0x1_0000_0000_0000_0000
}
