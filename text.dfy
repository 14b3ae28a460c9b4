/**
 * String operations of the JavaScript runtime that the application relies on:
 * `includes`/`indexOf`, `split`/`join`, `replace` with a literal pattern (and its
 * `$`-pattern expansion of the replacement), `trim`, and ASCII `toLowerCase`.
 * Strings are sequences of Unicode scalar values.
 */
module Text {
  import opened Wrappers

  /** Concatenation regroups freely (a helper for proofs that build strings piece by piece). */
  lemma ConcatAssoc(a: string, b: string, c: string)
    ensures a + (b + c) == a + b + c
  {
  }

  /** `pat` occurs in `s` starting at index `i`. */
  predicate OccursAt(s: string, pat: string, i: nat) {
    i + |pat| <= |s| && s[i..i + |pat|] == pat
  }

  /** The first occurrence of `pat` in `s` at or after `from` (JavaScript `indexOf(pat, from)`). */
  function IndexOfFrom(s: string, pat: string, from: nat): (r: Option<nat>)
    decreases |s| - from
    ensures r.Some? ==> from <= r.value && OccursAt(s, pat, r.value)
  {
    if from + |pat| > |s| then None
    else if OccursAt(s, pat, from) then Some(from)
    else IndexOfFrom(s, pat, from + 1)
  }

  /** `indexOf` finds the first occurrence at or after `from`, and finds nothing only when there is none. */
  lemma {:induction false} IndexOfFromIsFirst(s: string, pat: string, from: nat)
    decreases |s| - from
    ensures IndexOfFrom(s, pat, from).Some? ==>
      forall j: nat :: from <= j < IndexOfFrom(s, pat, from).value ==> !OccursAt(s, pat, j)
    ensures IndexOfFrom(s, pat, from).None? ==> forall j: nat :: from <= j ==> !OccursAt(s, pat, j)
  {
    if from + |pat| <= |s| && !OccursAt(s, pat, from) {
      IndexOfFromIsFirst(s, pat, from + 1);
    }
  }

  /** The first occurrence of `pat` in `s` (JavaScript `indexOf(pat)`). */
  function IndexOf(s: string, pat: string): Option<nat> {
    IndexOfFrom(s, pat, 0)
  }

  /** JavaScript `s.includes(pat)`. */
  predicate Contains(s: string, pat: string) {
    IndexOf(s, pat).Some?
  }

  /** `includes` holds exactly when the pattern occurs somewhere. */
  lemma ContainsIffOccurs(s: string, pat: string)
    ensures Contains(s, pat) <==> exists i: nat :: OccursAt(s, pat, i)
  {
    IndexOfFromIsFirst(s, pat, 0);
  }

  /** A string built around `pat` contains it. */
  lemma ContainsMiddle(a: string, pat: string, b: string)
    ensures Contains(a + pat + b, pat)
  {
    ContainsIffOccurs(a + pat + b, pat);
    assert OccursAt(a + pat + b, pat, |a|);
  }

  /** JavaScript `s.split(sep)` for a non-empty string separator: the pieces between non-overlapping occurrences, left to right. */
  function Split(s: string, sep: string): (parts: seq<string>)
    requires sep != []
    decreases |s|
    ensures |parts| >= 1
  {
    match IndexOf(s, sep)
    case None => [s]
    case Some(k) => [s[..k]] + Split(s[k + |sep|..], sep)
  }

  /** JavaScript `parts.join(sep)`. */
  function Join(parts: seq<string>, sep: string): string {
    if |parts| == 0 then ""
    else if |parts| == 1 then parts[0]
    else parts[0] + sep + Join(parts[1..], sep)
  }

  /** Splitting and joining with the same separator gives back the string. */
  lemma {:induction false} JoinSplit(s: string, sep: string)
    requires sep != []
    decreases |s|
    ensures Join(Split(s, sep), sep) == s
  {
    match IndexOf(s, sep)
    case None =>
    case Some(k) =>
      var rest := s[k + |sep|..];
      var tail := Split(rest, sep);
      JoinSplit(rest, sep);
      assert Split(s, sep) == [s[..k]] + tail;
      assert ([s[..k]] + tail)[1..] == tail;
      assert Join([s[..k]] + tail, sep) == s[..k] + sep + Join(tail, sep);
      assert s == s[..k] + s[k..k + |sep|] + rest;
  }

  /**
   * `s.split(sep).slice(1).join(sep)`: everything after the first occurrence of `sep`,
   * later occurrences kept verbatim.
   */
  lemma AfterFirstOccurrence(s: string, sep: string, k: nat)
    requires sep != [] && IndexOf(s, sep) == Some(k)
    ensures Join(Split(s, sep)[1..], sep) == s[k + |sep|..]
  {
    assert Split(s, sep)[1..] == Split(s[k + |sep|..], sep);
    JoinSplit(s[k + |sep|..], sep);
  }

  /** A pattern whose first character does not occur in `x` is first found right after `x`. */
  lemma {:induction false} IndexOfAfterFreePrefix(x: string, pat: string, rest: string, from: nat)
    requires pat != [] && pat[0] !in x && from <= |x|
    decreases |x| - from
    ensures IndexOfFrom(x + pat + rest, pat, from) == Some(|x|)
  {
    var s := x + pat + rest;
    assert s[|x|..|x| + |pat|] == pat;
    if from < |x| {
      assert s[from] == x[from];
      assert !OccursAt(s, pat, from);
      IndexOfAfterFreePrefix(x, pat, rest, from + 1);
    }
  }

  /** A string without `pat[0]`, followed by one `pat`, splits into itself and the empty tail. */
  lemma SplitAtTrailing(x: string, pat: string)
    requires pat != [] && pat[0] !in x
    ensures Split(x + pat, pat) == [x, ""]
  {
    IndexOfAfterFreePrefix(x, pat, "", 0);
    assert x + pat + "" == x + pat;
    assert (x + pat)[..|x|] == x;
    assert (x + pat)[|x| + |pat|..] == "";
    assert IndexOf("", pat).None?;
  }

  /** A string in which `pat` cannot occur (its first character is absent) splits into itself. */
  lemma SplitFree(x: string, pat: string)
    requires pat != [] && pat[0] !in x
    ensures Split(x, pat) == [x]
  {
  }

  /**
   * The replacement text for one match of a pattern without capture groups
   * (the ECMAScript GetSubstitution rules): `$$` is `$`, `$&` the match, `` $` `` the text
   * before it, `$'` the text after it; any other `$` is literal.
   */
  function Substitution(rep: string, matched: string, before: string, after: string): string
    decreases |rep|
  {
    if |rep| == 0 then ""
    else if rep[0] == '$' && |rep| >= 2 && rep[1] == '$' then "$" + Substitution(rep[2..], matched, before, after)
    else if rep[0] == '$' && |rep| >= 2 && rep[1] == '&' then matched + Substitution(rep[2..], matched, before, after)
    else if rep[0] == '$' && |rep| >= 2 && rep[1] == '`' then before + Substitution(rep[2..], matched, before, after)
    else if rep[0] == '$' && |rep| >= 2 && rep[1] == '\'' then after + Substitution(rep[2..], matched, before, after)
    else [rep[0]] + Substitution(rep[1..], matched, before, after)
  }

  /** A replacement without `$` is inserted literally. */
  lemma {:induction false} SubstitutionLiteral(rep: string, matched: string, before: string, after: string)
    requires '$' !in rep
    decreases |rep|
    ensures Substitution(rep, matched, before, after) == rep
  {
    if |rep| > 0 {
      assert rep[0] != '$';
      assert '$' !in rep[1..];
      SubstitutionLiteral(rep[1..], matched, before, after);
    }
  }

  /** Global replacement in `rest`, where `done` is the part of the whole string already scanned. */
  function ReplaceIn(done: string, rest: string, pat: string, rep: string): string
    requires pat != []
    decreases |rest|
  {
    match IndexOf(rest, pat)
    case None => rest
    case Some(k) =>
      rest[..k] + Substitution(rep, pat, done + rest[..k], rest[k + |pat|..])
      + ReplaceIn(done + rest[..k + |pat|], rest[k + |pat|..], pat, rep)
  }

  /** `s.replace(/pat/g, rep)` for a pattern that matches exactly the literal `pat`. */
  function ReplaceAll(s: string, pat: string, rep: string): string
    requires pat != []
  {
    ReplaceIn("", s, pat, rep)
  }

  /** With a `$`-free replacement, replacing every occurrence is splitting and joining with the replacement. */
  lemma {:induction false} ReplaceInIsSplitJoin(done: string, rest: string, pat: string, rep: string)
    requires pat != [] && '$' !in rep
    decreases |rest|
    ensures ReplaceIn(done, rest, pat, rep) == Join(Split(rest, pat), rep)
  {
    match IndexOf(rest, pat)
    case None =>
    case Some(k) =>
      var tail := rest[k + |pat|..];
      var parts := Split(tail, pat);
      SubstitutionLiteral(rep, pat, done + rest[..k], tail);
      ReplaceInIsSplitJoin(done + rest[..k + |pat|], tail, pat, rep);
      assert ReplaceIn(done, rest, pat, rep) == rest[..k] + rep + ReplaceIn(done + rest[..k + |pat|], tail, pat, rep);
      assert Split(rest, pat) == [rest[..k]] + parts;
      assert ([rest[..k]] + parts)[1..] == parts;
      assert Join([rest[..k]] + parts, rep) == rest[..k] + rep + Join(parts, rep);
  }

  lemma ReplaceAllIsSplitJoin(s: string, pat: string, rep: string)
    requires pat != [] && '$' !in rep
    ensures ReplaceAll(s, pat, rep) == Join(Split(s, pat), rep)
  {
    ReplaceInIsSplitJoin("", s, pat, rep);
  }

  /** A string in which `pat` does not occur is left as it is. */
  lemma ReplaceAllAbsent(s: string, pat: string, rep: string)
    requires pat != [] && !Contains(s, pat)
    ensures ReplaceAll(s, pat, rep) == s
  {
    assert IndexOf(s, pat).None?;
  }

  /** `s.replace(pat, rep)` with a string pattern: only the first occurrence is replaced. */
  function ReplaceFirst(s: string, pat: string, rep: string): (r: string)
    requires pat != []
    ensures IndexOf(s, pat).None? ==> r == s
    ensures '$' !in rep && IndexOf(s, pat).Some? ==>
      var k := IndexOf(s, pat).value; r == s[..k] + rep + s[k + |pat|..]
  {
    match IndexOf(s, pat)
    case None => s
    case Some(k) =>
      if '$' !in rep then SubstitutionLiteral(rep, pat, s[..k], s[k + |pat|..]); s[..k] + Substitution(rep, pat, s[..k], s[k + |pat|..]) + s[k + |pat|..]
      else s[..k] + Substitution(rep, pat, s[..k], s[k + |pat|..]) + s[k + |pat|..]
  }

  /**
   * The characters JavaScript's `trim` removes and the regular-expression class `\s` matches:
   * the Unicode WhiteSpace and LineTerminator code points of ECMAScript.
   */
  predicate IsJsSpace(c: char) {
    c == '\t' || c == '\n' || c == '\U{000B}' || c == '\U{000C}' || c == '\r' || c == ' '
    || c == '\U{00A0}' || c == '\U{1680}' || ('\U{2000}' <= c <= '\U{200A}')
    || c == '\U{2028}' || c == '\U{2029}' || c == '\U{202F}' || c == '\U{205F}'
    || c == '\U{3000}' || c == '\U{FEFF}'
  }

  /** `s` holds only whitespace. */
  predicate AllSpace(s: string) {
    forall i :: 0 <= i < |s| ==> IsJsSpace(s[i])
  }

  /** Leading whitespace removed. */
  function TrimStart(s: string): string {
    if s != [] && IsJsSpace(s[0]) then TrimStart(s[1..]) else s
  }

  /** Trailing whitespace removed. */
  function TrimEnd(s: string): string {
    if s != [] && IsJsSpace(s[|s| - 1]) then TrimEnd(s[..|s| - 1]) else s
  }

  /** `trimStart` keeps a suffix, drops only whitespace, and leaves no whitespace in front. */
  lemma {:induction false} TrimStartDropsLeadingSpace(s: string)
    ensures var r := TrimStart(s);
      |r| <= |s| && r == s[|s| - |r|..] && AllSpace(s[..|s| - |r|]) && (r != [] ==> !IsJsSpace(r[0]))
  {
    if s != [] && IsJsSpace(s[0]) {
      TrimStartDropsLeadingSpace(s[1..]);
      var r := TrimStart(s);
      assert s[..|s| - |r|] == [s[0]] + s[1..][..|s| - 1 - |r|];
    }
  }

  /** `trimEnd` keeps a prefix, drops only whitespace, and leaves no whitespace at the back. */
  lemma {:induction false} TrimEndDropsTrailingSpace(s: string)
    ensures var r := TrimEnd(s);
      |r| <= |s| && r == s[..|r|] && AllSpace(s[|r|..]) && (r != [] ==> !IsJsSpace(r[|r| - 1]))
  {
    if s != [] && IsJsSpace(s[|s| - 1]) {
      var s' := s[..|s| - 1];
      TrimEndDropsTrailingSpace(s');
      var r := TrimEnd(s);
      assert s[|r|..] == s'[|r|..] + [s[|s| - 1]];
    }
  }

  /** `trimEnd` of a string that does not start with whitespace does not either. */
  lemma {:induction false} TrimEndKeepsFront(s: string)
    requires s == [] || !IsJsSpace(s[0])
    ensures TrimEnd(s) == [] || !IsJsSpace(TrimEnd(s)[0])
  {
    TrimEndDropsTrailingSpace(s);
  }

  /** JavaScript `s.trim()`. */
  function Trim(s: string): string {
    TrimEnd(TrimStart(s))
  }

  /** A string that neither starts nor ends with whitespace is its own trim. */
  lemma TrimTrimmed(s: string)
    requires s != [] && !IsJsSpace(s[0]) && !IsJsSpace(s[|s| - 1])
    ensures Trim(s) == s
  {
  }

  /** Surrounding whitespace is removed by `trim`. */
  lemma {:induction false} TrimPadded(w1: string, s: string, w2: string)
    requires AllSpace(w1) && AllSpace(w2)
    requires s != [] && !IsJsSpace(s[0]) && !IsJsSpace(s[|s| - 1])
    ensures Trim(w1 + s + w2) == s
  {
    assert w1 + s + w2 == w1 + (s + w2);
    TrimStartPadded(w1, s + w2);
    TrimEndPadded(s, w2);
  }

  lemma {:induction false} TrimStartPadded(w: string, s: string)
    requires AllSpace(w) && s != [] && !IsJsSpace(s[0])
    decreases |w|
    ensures TrimStart(w + s) == s
  {
    if w != [] {
      assert (w + s)[1..] == w[1..] + s;
      TrimStartPadded(w[1..], s);
    }
  }

  lemma {:induction false} TrimEndPadded(s: string, w: string)
    requires AllSpace(w) && s != [] && !IsJsSpace(s[|s| - 1])
    decreases |w|
    ensures TrimEnd(s + w) == s
  {
    if w != [] {
      assert (s + w)[..|s + w| - 1] == s + w[..|w| - 1];
      TrimEndPadded(s, w[..|w| - 1]);
    }
  }

  /** `s.trim() === ''` exactly when `s` holds only whitespace. */
  lemma TrimEmptyIffAllSpace(s: string)
    ensures Trim(s) == [] <==> AllSpace(s)
  {
    TrimStartDropsLeadingSpace(s);
    var t := TrimStart(s);
    TrimEndDropsTrailingSpace(t);
    assert s == s[..|s| - |t|] + t;
  }

  /** ASCII lower-casing of one character. */
  function LowerChar(c: char): char {
    if 'A' <= c <= 'Z' then (c as int + 32) as char else c
  }

  /** `s.toLowerCase()` restricted to ASCII letters. */
  function ToLowerAscii(s: string): (r: string)
    ensures |r| == |s|
    ensures forall i :: 0 <= i < |s| ==> r[i] == LowerChar(s[i])
  {
    if s == [] then [] else [LowerChar(s[0])] + ToLowerAscii(s[1..])
  }

  /** The decimal digits of a natural number, most significant first. */
  function NatToDecimal(n: nat): string {
    if n < 10 then [(48 + n) as char] else NatToDecimal(n / 10) + [(48 + n % 10) as char]
  }

  /** The decimal form of a natural number is a non-empty string of digits. */
  lemma {:induction false} NatToDecimalDigits(n: nat)
    ensures NatToDecimal(n) != []
    ensures forall i :: 0 <= i < |NatToDecimal(n)| ==> '0' <= NatToDecimal(n)[i] <= '9'
  {
    if n >= 10 {
      NatToDecimalDigits(n / 10);
    }
  }

  /** `String(n)` for an integer. */
  function IntToDecimal(n: int): string {
    if n < 0 then "-" + NatToDecimal(-n) else NatToDecimal(n)
  }
}
