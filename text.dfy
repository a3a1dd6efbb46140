/**
 * The string operations the services use to normalise names, e-mail
 * addresses and titles: `Trim()` and `ToLower()`/`ToLowerInvariant()`.
 * Lower-casing is the ASCII letter mapping (the source's culture rules are
 * not modelled); whitespace is what .NET's `Char.IsWhiteSpace` accepts.
 * The order strings are sorted in belongs to the database (its collation)
 * or to the current culture, so it is a parameter: any total preorder.
 */
module Text {

  import opened Common
  import Seqs

  /**
   * `Char.IsWhiteSpace`: the Unicode space separators, the line and
   * paragraph separators, and the controls U+0009 to U+000D and U+0085.
   */
  predicate IsWhite(c: char) {
    || '\U{0009}' <= c <= '\U{000D}' || c == '\U{0020}' || c == '\U{0085}' || c == '\U{00A0}' || c == '\U{1680}'
    || '\U{2000}' <= c <= '\U{200A}' || c == '\U{2028}' || c == '\U{2029}' || c == '\U{202F}' || c == '\U{205F}'
    || c == '\U{3000}'
  }

  function LowerChar(c: char): char {
    if 'A' <= c <= 'Z' then (c as int + 32) as char else c
  }

  /** `ToLower()`: every upper-case ASCII letter is replaced by its lower-case form. */
  function Lower(s: string): (r: string)
    ensures |r| == |s|
    ensures forall i :: 0 <= i < |s| ==> r[i] == LowerChar(s[i])
  {
    if s == [] then [] else [LowerChar(s[0])] + Lower(s[1..])
  }

  /** Drops leading whitespace. */
  function TrimStart(s: string): string
  {
    if s != [] && IsWhite(s[0]) then TrimStart(s[1..]) else s
  }

  /** Drops trailing whitespace. */
  function TrimEnd(s: string): string
  {
    if s != [] && IsWhite(s[|s| - 1]) then TrimEnd(s[..|s| - 1]) else s
  }

  /** `Trim()`. */
  function Trim(s: string): string
  {
    TrimEnd(TrimStart(s))
  }

  // The properties of trimming are lemmas rather than postconditions: as
  // postconditions they are assumed at every call, and an entity with many
  // trimmed fields then makes unrelated proofs run out of resource.

  /** `TrimStart` keeps a suffix of `s`, what it drops is all whitespace, and what it keeps starts with a non-blank. */
  lemma {:induction false} TrimStartSpec(s: string)
    ensures |TrimStart(s)| <= |s| && TrimStart(s) == s[|s| - |TrimStart(s)|..]
    ensures forall k :: 0 <= k < |s| - |TrimStart(s)| ==> IsWhite(s[k])
    ensures TrimStart(s) != [] ==> !IsWhite(TrimStart(s)[0])
  {
    if s != [] && IsWhite(s[0]) {
      var t, r := s[1..], TrimStart(s);
      TrimStartSpec(t);
      assert s[|s| - |r|..] == t[|t| - |r|..];
      forall k | 0 <= k < |s| - |r| ensures IsWhite(s[k]) {
        if k > 0 { assert s[k] == t[k - 1]; }
      }
    }
  }

  /** `TrimEnd` keeps a prefix of `s`, what it drops is all whitespace, and what it keeps ends with a non-blank. */
  lemma {:induction false} TrimEndSpec(s: string)
    ensures |TrimEnd(s)| <= |s| && TrimEnd(s) == s[..|TrimEnd(s)|]
    ensures forall k :: |TrimEnd(s)| <= k < |s| ==> IsWhite(s[k])
    ensures TrimEnd(s) != [] ==> !IsWhite(TrimEnd(s)[|TrimEnd(s)| - 1])
  {
    if s != [] && IsWhite(s[|s| - 1]) {
      var t, r := s[..|s| - 1], TrimEnd(s);
      TrimEndSpec(t);
      assert s[..|r|] == t[..|r|];
      forall k | |r| <= k < |s| ensures IsWhite(s[k]) {
        if k < |t| { assert s[k] == t[k]; }
      }
    }
  }

  /**
   * A trimmed string is the slice of the input that starts where the
   * leading whitespace ends, and it starts and ends with a non-blank.
   */
  lemma TrimSpec(s: string)
    ensures var r, i := Trim(s), |s| - |TrimStart(s)|;
      && 0 <= i && i + |r| <= |s| && r == s[i..i + |r|]
      && (r != [] ==> !IsWhite(r[0]) && !IsWhite(r[|r| - 1]))
  {
    TrimStartSpec(s);
    TrimEndSpec(TrimStart(s));
  }

  /** `x?.Trim()` on a nullable string. */
  function TrimOpt(s: Option<string>): (r: Option<string>)
    ensures r.Some? <==> s.Some?
  {
    match s
    case None => None
    case Some(v) => Some(Trim(v))
  }

  lemma {:induction false} LowerIdempotent(s: string)
    ensures Lower(Lower(s)) == Lower(s)
  {
    if s != [] {
      LowerIdempotent(s[1..]);
      assert Lower(s)[1..] == Lower(s[1..]);
    }
  }

  lemma LowerKeepsWhite(c: char)
    ensures IsWhite(LowerChar(c)) == IsWhite(c)
  {
  }

  lemma {:induction false} LowerTrimStart(s: string)
    ensures TrimStart(Lower(s)) == Lower(TrimStart(s))
  {
    if s != [] {
      LowerKeepsWhite(s[0]);
      assert Lower(s)[1..] == Lower(s[1..]);
      if IsWhite(s[0]) {
        LowerTrimStart(s[1..]);
      }
    }
  }

  lemma {:induction false} LowerTrimEnd(s: string)
    ensures TrimEnd(Lower(s)) == Lower(TrimEnd(s))
  {
    if s != [] {
      var n := |s| - 1;
      var ls := Lower(s);
      LowerKeepsWhite(s[n]);
      if IsWhite(s[n]) {
        LowerPrefix(s, n);
        LowerTrimEnd(s[..n]);
      }
    }
  }

  /** Lower-casing a prefix is taking the prefix of the lower-cased string. */
  lemma LowerPrefix(s: string, n: nat)
    requires n <= |s|
    ensures Lower(s[..n]) == Lower(s)[..n]
  {
  }

  /** Lower-casing and trimming commute, so `x.ToLower().Trim()` and `x.Trim().ToLower()` agree. */
  lemma LowerTrimCommute(s: string)
    ensures Trim(Lower(s)) == Lower(Trim(s))
  {
    LowerTrimStart(s);
    LowerTrimEnd(TrimStart(s));
  }

  /** The key the services compare on: trimmed and lower-cased. */
  function Normalize(s: string): string
  {
    Lower(Trim(s))
  }

  /** The key is the same whichever of the two is applied first, and lower-casing leaves it unchanged. */
  lemma NormalizeProperties(s: string)
    ensures Normalize(s) == Trim(Lower(s))
    ensures Lower(Normalize(s)) == Normalize(s)
  {
    LowerTrimCommute(s);
    LowerIdempotent(Trim(s));
  }

  /** Digits of a number, used where the source interpolates an identifier or a time into a message. */
  function NatText(n: nat): (r: string)
    ensures r != []
    ensures forall k :: 0 <= k < |r| ==> '0' <= r[k] <= '9'
    decreases n
  {
    var d := [(48 + n % 10) as char];
    if n < 10 then d else NatText(n / 10) + d
  }

  /** `string.Join(sep, parts)`. */
  function Join(parts: seq<string>, sep: string): (r: string)
    ensures parts == [] ==> r == []
    ensures |parts| == 1 ==> r == parts[0]
  {
    if parts == [] then []
    else if |parts| == 1 then parts[0]
    else parts[0] + sep + Join(parts[1..], sep)
  }

  /** Joining one part more appends the separator and the part. */
  lemma {:induction false} JoinSnoc(parts: seq<string>, p: string, sep: string)
    requires parts != []
    ensures Join(parts + [p], sep) == Join(parts, sep) + sep + p
  {
    var all := parts + [p];
    assert all[0] == parts[0] && all[1..] == parts[1..] + [p];
    if |parts| > 1 {
      JoinSnoc(parts[1..], p, sep);
    }
  }

  /** Ordinal string order: lexicographic on the characters' code points. */
  predicate StrLe(a: string, b: string)
  {
    a == [] || (b != [] && (a[0] < b[0] || (a[0] == b[0] && StrLe(a[1..], b[1..]))))
  }

  lemma {:induction false} StrLeTotal(a: string, b: string)
    ensures StrLe(a, b) || StrLe(b, a)
  {
    if a != [] && b != [] && a[0] == b[0] {
      StrLeTotal(a[1..], b[1..]);
    }
  }

  lemma {:induction false} StrLeTrans(a: string, b: string, c: string)
    requires StrLe(a, b) && StrLe(b, c)
    ensures StrLe(a, c)
  {
    if a != [] && b != [] && c != [] && a[0] == b[0] && b[0] == c[0] {
      StrLeTrans(a[1..], b[1..], c[1..]);
    }
  }

  /**
   * A case-insensitive order (ordinal on the lower-cased strings), as a
   * default SQL Server collation compares: "apple" comes before "Banana".
   */
  function IgnoringCase(): (string, string) -> bool
  {
    (a, b) => StrLe(Lower(a), Lower(b))
  }

  /** A case-insensitive collation is an order `OrderBy` can sort by. */
  lemma IgnoringCasePreorder()
    ensures Seqs.TotalPreorder(IgnoringCase())
    ensures IgnoringCase()("apple", "Banana") && !IgnoringCase()("Banana", "apple")
  {
    forall a, b ensures IgnoringCase()(a, b) || IgnoringCase()(b, a) {
      StrLeTotal(Lower(a), Lower(b));
    }
    forall a, b, c | IgnoringCase()(a, b) && IgnoringCase()(b, c) ensures IgnoringCase()(a, c) {
      StrLeTrans(Lower(a), Lower(b), Lower(c));
    }
    assert Lower("Banana") == "banana";
  }

  /** Drops the trailing spaces (U+0020) that SQL's `=` ignores by padding the shorter operand. */
  function DropTrailingSpaces(s: string): (r: string)
    ensures |r| <= |s| && r == s[..|r|]
    ensures r == [] || r[|r| - 1] != ' '
    ensures forall k :: |r| <= k < |s| ==> s[k] == ' '
  {
    if s != [] && s[|s| - 1] == ' ' then DropTrailingSpaces(s[..|s| - 1]) else s
  }

  /**
   * The `=` of a case-insensitive SQL Server collation: two strings are
   * equal when they agree up to case once trailing spaces are dropped.
   */
  function SameIgnoringCase(): (string, string) -> bool
  {
    (a, b) => Lower(DropTrailingSpaces(a)) == Lower(DropTrailingSpaces(b))
  }

  /** The `=` of a binary collation: the strings are identical. */
  function SameBinary(): (string, string) -> bool
  {
    (a, b) => a == b
  }

  /** Both collations' `=` are equivalences. */
  lemma SameIsEquivalence()
    ensures Seqs.Equivalence(SameIgnoringCase()) && Seqs.Equivalence(SameBinary())
  {
  }

  /** The case-insensitive `=` holds between "Seattle" and "seattle ", the binary one does not. */
  lemma SameIgnoringCaseExample()
    ensures SameIgnoringCase()("Seattle", "seattle ") && !SameBinary()("Seattle", "seattle ")
  {
    assert DropTrailingSpaces("seattle ") == "seattle" by {
      assert "seattle "[..7] == "seattle";
    }
    assert DropTrailingSpaces("Seattle") == "Seattle";
    var a := Lower("Seattle");
    var b := Lower("seattle");
    assert forall i :: 0 <= i < 7 ==> a[i] == b[i] by {
      assert a[0] == LowerChar('S') == 's';
    }
    assert a == b;
  }

  /** `OrderBy(key)` on a string key, under the string order `le`. */
  function ByString<T>(key: T -> string, le: (string, string) -> bool): (T, T) -> bool
  {
    (x, y) => le(key(x), key(y))
  }

  lemma ByStringPreorder<T(!new)>(key: T -> string, le: (string, string) -> bool)
    requires Seqs.TotalPreorder(le)
    ensures Seqs.TotalPreorder(ByString(key, le))
  {
  }
}
