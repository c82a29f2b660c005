/** The fragment of ECMAScript regular expressions (section 22.2 of ECMA-262)
    that the registration form's password pattern is written in, and what
    `RegExp.prototype.test` answers for a pattern without flags.

    A string is a sequence of `char`. A `char` is one Unicode scalar value,
    which is one element of the JavaScript string for characters in the Basic
    Multilingual Plane; a character outside it is two elements in JavaScript
    and one `char` here, and a lone surrogate has no `char` at all.
    Matching is given as the set of positions at which a match starting at `i`
    can end. A pattern without captures or back-references either matches or
    does not whatever order the backtracking matcher tries the alternatives
    in, so this set describes `test` exactly. */
module EcmaRegex {

  /** The characters `.` refuses when the `s` flag is absent: LINE FEED,
      CARRIAGE RETURN, LINE SEPARATOR and PARAGRAPH SEPARATOR. */
  predicate IsLineTerminator(c: char) {
    c == '\n' || c == '\r' || c == '\U{2028}' || c == '\U{2029}'
  }

  predicate IsAsciiUpper(c: char) {
    'A' <= c <= 'Z'
  }

  predicate IsAsciiAlphanumeric(c: char) {
    'a' <= c <= 'z' || 'A' <= c <= 'Z' || '0' <= c <= '9'
  }

  /** A set of characters, as the pattern's atoms denote them. */
  datatype CharClass =
    | AnyButLineTerminator                      // `.`
    | Range(lo: char, hi: char)                 // `[lo-hi]`
    | Single(c: char)                           // a literal character
    | Union(left: CharClass, right: CharClass)  // `[...]` with two members
    | Complement(of: CharClass)                 // `\W` against `\w`

  predicate InClass(cls: CharClass, c: char) {
    match cls
    case AnyButLineTerminator => !IsLineTerminator(c)
    case Range(lo, hi) => lo <= c <= hi
    case Single(d) => c == d
    case Union(l, r) => InClass(l, c) || InClass(r, c)
    case Complement(k) => !InClass(k, c)
  }

  /** `\w` when neither the `u` nor the `i` flag is set. */
  const WordChar: CharClass :=
    Union(Range('a', 'z'), Union(Range('A', 'Z'), Union(Range('0', '9'), Single('_'))))

  /** `\W`: every character outside `\w`, line terminators included. */
  const NonWordChar: CharClass := Complement(WordChar)

  /** Regular expressions built from the constructs the password pattern uses.
      Quantifiers are applied to a single character class only. */
  datatype Regex =
    | Atom(cls: CharClass)                 // one character of the class
    | Repeat(body: CharClass, min: nat)    // `body{min,}`; `body*` is `min == 0`
    | Concat(first: Regex, next: Regex)
    | Lookahead(ahead: Regex)              // `(?=ahead)`
    | InputStart                           // `^` without the `m` flag
    | InputEnd                             // `$` without the `m` flag

  /** Every character of `s` from `i` up to `j` is in `cls`. */
  predicate Spans(cls: CharClass, s: string, i: nat, j: nat)
    requires i <= j <= |s|
  {
    forall m :: i <= m < j ==> InClass(cls, s[m])
  }

  /** The positions at which a match of `r` on `s` that starts at `i` can end. */
  function Ends(r: Regex, s: string, i: nat): (ends: set<nat>)
    requires i <= |s|
    ensures forall j :: j in ends ==> i <= j <= |s|
    ensures r.Lookahead? || r.InputStart? || r.InputEnd? ==> ends <= {i}
    decreases r
  {
    match r
    case Atom(cls) =>
      if i < |s| && InClass(cls, s[i]) then {i + 1} else {}
    case Repeat(body, min) =>
      set j: nat | i + min <= j <= |s| && Spans(body, s, i, j)
    case Concat(a, b) =>
      set j, k | j in Ends(a, s, i) && k in Ends(b, s, j) :: k
    case Lookahead(a) =>
      if Ends(a, s, i) != {} then {i} else {}
    case InputStart =>
      if i == 0 then {i} else {}
    case InputEnd =>
      if i == |s| then {i} else {}
  }

  /** `RegExp.prototype.test` for a regular expression without the `g`, `y` or
      `m` flag: `lastIndex` stays 0 and a match is tried at every start index
      from 0 up to the length of the input. */
  predicate Test(r: Regex, s: string)
    ensures r == InputEnd ==> Test(r, s)
  {
    assert r == InputEnd ==> |s| in Ends(r, s, |s|);
    exists i: nat | i <= |s| :: Ends(r, s, i) != {}
  }

  /** A pattern that begins with `^` can only match from the start of the input. */
  lemma AnchoredTest(r: Regex, s: string)
    ensures Test(Concat(InputStart, r), s) <==> Ends(r, s, 0) != {}
  {
    if Test(Concat(InputStart, r), s) {
      var i: nat :| i <= |s| && Ends(Concat(InputStart, r), s, i) != {};
      var k :| k in Ends(Concat(InputStart, r), s, i);
      var j :| j in Ends(InputStart, s, i) && k in Ends(r, s, j);
      assert j == 0;
    }
    if Ends(r, s, 0) != {} {
      var k :| k in Ends(r, s, 0);
      assert k in Ends(Concat(InputStart, r), s, 0);
      assert Ends(Concat(InputStart, r), s, 0) != {};
    }
  }

  /** A lookahead followed by `rest` matches exactly where `ahead` matches at
      the same position and `rest` matches too; the lookahead consumes nothing. */
  lemma LookaheadThen(ahead: Regex, rest: Regex, s: string, i: nat)
    requires i <= |s|
    ensures Ends(Concat(Lookahead(ahead), rest), s, i) != {}
        <==> Ends(ahead, s, i) != {} && Ends(rest, s, i) != {}
  {
    if Ends(ahead, s, i) != {} && Ends(rest, s, i) != {} {
      var k :| k in Ends(rest, s, i);
      assert i in Ends(Lookahead(ahead), s, i);
      assert k in Ends(Concat(Lookahead(ahead), rest), s, i);
    }
  }

  /** `body*` followed by `target` finds a character of `target` at or after
      `i` such that every character before it, from `i`, is in `body`. */
  lemma {:induction false} FindAfterRepeat(body: CharClass, target: CharClass, s: string, i: nat)
    requires i <= |s|
    ensures Ends(Concat(Repeat(body, 0), Atom(target)), s, i) != {}
        <==> exists k :: i <= k < |s| && InClass(target, s[k])
                          && forall m :: i <= m < k ==> InClass(body, s[m])
  {
    var r := Concat(Repeat(body, 0), Atom(target));
    if Ends(r, s, i) != {} {
      var e :| e in Ends(r, s, i);
      var j :| j in Ends(Repeat(body, 0), s, i) && e in Ends(Atom(target), s, j);
      assert i <= j < |s| && InClass(target, s[j]);
    }
    if exists k :: i <= k < |s| && InClass(target, s[k]) && forall m :: i <= m < k ==> InClass(body, s[m]) {
      var k :| i <= k < |s| && InClass(target, s[k]) && forall m :: i <= m < k ==> InClass(body, s[m]);
      assert k in Ends(Repeat(body, 0), s, i);
      assert k + 1 in Ends(Atom(target), s, k);
      assert k + 1 in Ends(r, s, i);
    }
  }

  /** `body{n,}$` matches from `i` exactly when at least `n` characters remain
      and every remaining character is in `body`. */
  lemma {:induction false} RepeatToEnd(body: CharClass, n: nat, s: string, i: nat)
    requires i <= |s|
    ensures Ends(Concat(Repeat(body, n), InputEnd), s, i) != {}
        <==> i + n <= |s| && forall m :: i <= m < |s| ==> InClass(body, s[m])
  {
    var r := Concat(Repeat(body, n), InputEnd);
    if Ends(r, s, i) != {} {
      var e :| e in Ends(r, s, i);
      var j :| j in Ends(Repeat(body, n), s, i) && e in Ends(InputEnd, s, j);
      assert j == |s|;
    }
    if i + n <= |s| && forall m :: i <= m < |s| ==> InClass(body, s[m]) {
      assert |s| in Ends(Repeat(body, n), s, i);
      assert |s| in Ends(InputEnd, s, |s|);
      assert |s| in Ends(r, s, i);
    }
  }
}
