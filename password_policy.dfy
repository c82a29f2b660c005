/** The password rule of the registration form: the literal
    `/^(?=.*[A-Z])(?=.*[\W_]).{6,}$/` and the message shown when a password
    fails it. */
module PasswordPolicy {

  import opened EcmaRegex

  /** `[A-Z]`: ASCII capitals only. */
  const Uppercase: CharClass := Range('A', 'Z')

  /** `[\W_]`: without the `u` flag, anything outside `[A-Za-z0-9]`. */
  const Special: CharClass := Union(NonWordChar, Single('_'))

  /** `.*` as the two lookaheads use it. */
  const AnyRun: Regex := Repeat(AnyButLineTerminator, 0)

  /** `^(?=.*[A-Z])(?=.*[\W_]).{6,}$` */
  const PasswordPattern: Regex :=
    Concat(InputStart,
      Concat(Lookahead(Concat(AnyRun, Atom(Uppercase))),
        Concat(Lookahead(Concat(AnyRun, Atom(Special))),
          Concat(Repeat(AnyButLineTerminator, 6), InputEnd))))

  const PasswordErrorText: string :=
    "Password should be minimum 6 characters, contain at least 1 capital letter & 1 special character"

  /** The rule character by character: at least six characters, none of them
      a line terminator, one ASCII capital and one character outside
      `[A-Za-z0-9]`. The capital and that character are always two different
      characters of the password. */
  predicate IsValidPassword(p: string)
    ensures IsValidPassword(p) ==>
      exists i, j :: 0 <= i < |p| && 0 <= j < |p| && i != j && IsAsciiUpper(p[i]) && !IsAsciiAlphanumeric(p[j])
  {
    && |p| >= 6
    && (forall i :: 0 <= i < |p| ==> !IsLineTerminator(p[i]))
    && (exists i :: 0 <= i < |p| && IsAsciiUpper(p[i]))
    && (exists i :: 0 <= i < |p| && !IsAsciiAlphanumeric(p[i]))
  }

  /** `[\W_]` is the complement of `[A-Za-z0-9]`. */
  lemma SpecialIsNonAlphanumeric(c: char)
    ensures InClass(Special, c) <==> !IsAsciiAlphanumeric(c)
  {
    var digitOrUnderscore := Union(Range('0', '9'), Single('_'));
    assert InClass(digitOrUnderscore, c) <==> '0' <= c <= '9' || c == '_';
    assert InClass(Union(Range('A', 'Z'), digitOrUnderscore), c) <==> 'A' <= c <= 'Z' || '0' <= c <= '9' || c == '_';
    assert InClass(WordChar, c) <==> IsAsciiAlphanumeric(c) || c == '_';
  }

  /** The three parts of the pattern after `^`, each tried from index 0. */
  predicate PatternParts(p: string) {
    && Ends(Concat(AnyRun, Atom(Uppercase)), p, 0) != {}
    && Ends(Concat(AnyRun, Atom(Special)), p, 0) != {}
    && Ends(Concat(Repeat(AnyButLineTerminator, 6), InputEnd), p, 0) != {}
  }

  /** The pattern matches iff its two lookaheads and its tail all match at index 0. */
  lemma PatternAsParts(p: string)
    ensures Test(PasswordPattern, p) <==> PatternParts(p)
  {
    var tail := Concat(Repeat(AnyButLineTerminator, 6), InputEnd);
    var special := Concat(AnyRun, Atom(Special));
    var afterUpper := Concat(Lookahead(special), tail);
    AnchoredTest(Concat(Lookahead(Concat(AnyRun, Atom(Uppercase))), afterUpper), p);
    LookaheadThen(Concat(AnyRun, Atom(Uppercase)), afterUpper, p, 0);
    LookaheadThen(special, tail, p, 0);
  }

  /** A password the pattern accepts keeps the rule. */
  lemma PatternImpliesPolicy(p: string)
    requires PatternParts(p)
    ensures IsValidPassword(p)
  {
    FindAfterRepeat(AnyButLineTerminator, Uppercase, p, 0);
    FindAfterRepeat(AnyButLineTerminator, Special, p, 0);
    RepeatToEnd(AnyButLineTerminator, 6, p, 0);
    var u :| 0 <= u < |p| && InClass(Uppercase, p[u]);
    assert IsAsciiUpper(p[u]);
    var x :| 0 <= x < |p| && InClass(Special, p[x]);
    SpecialIsNonAlphanumeric(p[x]);
  }

  /** A password that keeps the rule is accepted by the pattern. */
  lemma PolicyImpliesPattern(p: string)
    requires IsValidPassword(p)
    ensures PatternParts(p)
  {
    FindAfterRepeat(AnyButLineTerminator, Uppercase, p, 0);
    FindAfterRepeat(AnyButLineTerminator, Special, p, 0);
    RepeatToEnd(AnyButLineTerminator, 6, p, 0);
    var u :| 0 <= u < |p| && IsAsciiUpper(p[u]);
    var x :| 0 <= x < |p| && !IsAsciiAlphanumeric(p[x]);
    SpecialIsNonAlphanumeric(p[x]);
    assert InClass(Uppercase, p[u]) && forall m :: 0 <= m < u ==> InClass(AnyButLineTerminator, p[m]);
    assert InClass(Special, p[x]) && forall m :: 0 <= m < x ==> InClass(AnyButLineTerminator, p[m]);
  }

  /** The regular expression accepts a password exactly when the
      character-level rule holds. */
  lemma PatternMatchesPolicy(p: string)
    ensures Test(PasswordPattern, p) <==> IsValidPassword(p)
  {
    PatternAsParts(p);
    if PatternParts(p) {
      PatternImpliesPolicy(p);
    }
    if IsValidPassword(p) {
      PolicyImpliesPattern(p);
    }
  }

  /** The worked example of a good password: "Abc!23". */
  lemma AcceptedExample()
    ensures Test(PasswordPattern, "Abc!23")
  {
    PatternMatchesPolicy("Abc!23");
    assert IsAsciiUpper("Abc!23"[0]) && !IsAsciiAlphanumeric("Abc!23"[3]);
  }

  /** The worked examples of bad passwords: "abc123" has neither a capital
      nor a special character; "Abcde" and "Ab!cd" are one character short. */
  lemma RejectedExamples()
    ensures !Test(PasswordPattern, "abc123")
    ensures !Test(PasswordPattern, "Abcde")
    ensures !Test(PasswordPattern, "Ab!cd")
  {
    PatternMatchesPolicy("abc123");
    PatternMatchesPolicy("Abcde");
    PatternMatchesPolicy("Ab!cd");
  }
}
