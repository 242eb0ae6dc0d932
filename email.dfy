/**
 * The newsletter form's e-mail check: `validateEmail` tests the regular
 * expression ^[^\s@]+@[^\s@]+\.[^\s@]+$ against the whole input.
 *
 * The language of that expression is stated directly by `IsPart` and the
 * concatenation L + "@" + A + "." + B; `ValidEmail` decides it by locating
 * the first '@'. The two lemmas `ValidEmailOfParts` and `ValidEmailSplit`
 * prove that they agree in both directions.
 */
module EmailValidator {
  import opened Base

  /**
   * The characters matched by \s in an ECMAScript regular expression:
   * the WhiteSpace code points (tab, vertical tab, form feed, space,
   * no-break space, zero-width no-break space and the Zs category) and
   * the LineTerminator code points (line feed, carriage return, line and
   * paragraph separators).
   */
  predicate IsWs(c: char) {
    || c == '\t' || c == '\n' || c == '\U{B}' || c == '\U{C}' || c == '\r' || c == ' '
    || c == '\U{A0}' || c == '\U{1680}' || ('\U{2000}' <= c <= '\U{200A}')
    || c == '\U{2028}' || c == '\U{2029}' || c == '\U{202F}' || c == '\U{205F}'
    || c == '\U{3000}' || c == '\U{FEFF}'
  }

  /** The character class [^\s@]. */
  predicate IsPartChar(c: char) {
    !IsWs(c) && c != '@'
  }

  /** Every character of `s` is in [^\s@]. */
  predicate AllPartChars(s: string) {
    forall i :: 0 <= i < |s| ==> IsPartChar(s[i])
  }

  /** `s` matches [^\s@]+ as a whole. */
  predicate IsPart(s: string) {
    |s| > 0 && AllPartChars(s)
  }

  /** The text after the '@' matches [^\s@]+\.[^\s@]+: some dot with something on both sides. */
  predicate ValidDomain(d: string) {
    AllPartChars(d) && exists k | 0 < k < |d| - 1 :: d[k] == '.'
  }

  /**
   * `validateEmail`: true exactly when the whole string matches the pattern
   * (`ValidEmailOfParts` and `ValidEmailSplit`). An accepted string holds an
   * '@' and is at least five characters long.
   */
  function ValidEmail(s: string): (r: bool)
    ensures r ==> '@' in s && 5 <= |s|
  {
    match IndexOf(s, '@')
    case None => false
    case Some(i) => 0 < i && AllPartChars(s[..i]) && ValidDomain(s[i + 1..])
  }

  /** Every local part, domain label and final label made of [^\s@]+ gives an accepted address. */
  lemma ValidEmailOfParts(l: string, a: string, b: string)
    requires IsPart(l) && IsPart(a) && IsPart(b)
    ensures ValidEmail(l + "@" + a + "." + b)
  {
    var d := a + "." + b;
    var s := l + "@" + d;
    assert s == l + "@" + a + "." + b;
    assert s[|l|] == '@';
    assert forall i :: 0 <= i < |l| ==> s[i] == l[i] && IsPartChar(l[i]);
    IndexOfAt(s, '@', |l|);
    assert s[..|l|] == l;
    assert s[|l| + 1..] == d;
    assert AllPartChars(d) by {
      forall j | 0 <= j < |d| ensures IsPartChar(d[j]) {
        if j < |a| { assert d[j] == a[j]; }
        else if j > |a| { assert d[j] == b[j - |a| - 1]; }
      }
    }
    assert d[|a|] == '.';
  }

  /** A run of [^\s@] characters stays one when cut. */
  lemma AllPartCharsSlice(s: string, lo: nat, hi: nat)
    requires AllPartChars(s) && lo <= hi <= |s|
    ensures AllPartChars(s[lo..hi])
  {
    forall j | 0 <= j < hi - lo ensures IsPartChar(s[lo..hi][j]) {
      assert s[lo..hi][j] == s[lo + j];
    }
  }

  /** A string is its text before position `i`, the character at `i`, and its text after. */
  lemma SplitAround(s: string, i: nat)
    requires i < |s|
    ensures s == s[..i] + [s[i]] + s[i + 1..]
  {
  }

  /** Concatenation is associative, for five parts. */
  lemma Regroup<T>(v: seq<T>, w: seq<T>, x: seq<T>, y: seq<T>, z: seq<T>)
    ensures v + w + (x + y + z) == v + w + x + y + z
  {
  }

  /** Every accepted address splits as L + "@" + A + "." + B, each part matching [^\s@]+. */
  lemma ValidEmailSplit(s: string) returns (l: string, a: string, b: string)
    requires ValidEmail(s)
    ensures IsPart(l) && IsPart(a) && IsPart(b)
    ensures s == l + "@" + a + "." + b
  {
    var i := IndexOf(s, '@').value;
    var d := s[i + 1..];
    assert AllPartChars(d) && exists k | 0 < k < |d| - 1 :: d[k] == '.';
    var k :| 0 < k < |d| - 1 && d[k] == '.';
    l, a, b := s[..i], d[..k], d[k + 1..];
    AllPartCharsSlice(d, 0, k);
    AllPartCharsSlice(d, k + 1, |d|);
    SplitAround(d, k);
    SplitAround(s, i);
    assert [s[i]] == "@" && [d[k]] == ".";
    Regroup(l, "@", a, ".", b);
  }

  /** A run of [^\s@] characters holds no '@'. */
  lemma PartHasNoAt(p: string)
    requires AllPartChars(p)
    ensures Count(p, '@') == 0
  {
    forall i | 0 <= i < |p| ensures p[i] != '@' { assert IsPartChar(p[i]); }
  }

  /** An accepted address holds exactly one '@'. */
  lemma AcceptedEmailHasOneAt(s: string)
    requires ValidEmail(s)
    ensures Count(s, '@') == 1
  {
    var l, a, b := ValidEmailSplit(s);
    PartHasNoAt(l);
    PartHasNoAt(a);
    PartHasNoAt(b);
    CountAppend(l, "@", '@');
    CountAppend(l + "@", a, '@');
    CountAppend(l + "@" + a, ".", '@');
    CountAppend(l + "@" + a + ".", b, '@');
  }

  /** An accepted address holds no \s character. */
  lemma AcceptedEmailHasNoWs(s: string)
    requires ValidEmail(s)
    ensures forall i :: 0 <= i < |s| ==> !IsWs(s[i])
  {
    var i := IndexOf(s, '@').value;
    var d := s[i + 1..];
    forall j | 0 <= j < |s| ensures !IsWs(s[j]) {
      if j < i {
        assert s[j] == s[..i][j];
      } else if j > i {
        assert s[j] == d[j - i - 1];
      }
    }
  }
}

/** Concrete inputs of the e-mail check. */
module EmailExamples {
  import opened Base
  import opened EmailValidator

  /** A plain address is accepted. */
  lemma AcceptsPlainAddress()
    ensures ValidEmail("a@b.com")
  {
    ValidEmailOfParts("a", "b", "com");
    assert "a" + "@" + "b" + "." + "com" == "a@b.com";
  }

  /** The address used in the subscription scenario is accepted. */
  lemma AcceptsExampleAddress()
    ensures ValidEmail("user@example.com")
  {
    ValidEmailOfParts("user", "example", "com");
    assert "user" + "@" + "example" + "." + "com" == "user@example.com";
  }

  /** The empty string and a string without '@' are rejected. */
  lemma RejectsMissingAt()
    ensures !ValidEmail("")
    ensures !ValidEmail("bad")
  {
  }

  /** A domain without a dot is rejected. */
  lemma RejectsMissingDot()
    ensures !ValidEmail("a@b")
  {
    IndexOfAt("a@b", '@', 1);
    assert "a@b"[2..] == "b";
  }

  /** A dot with nothing before it is rejected. */
  lemma RejectsEmptyDomainLabel()
    ensures !ValidEmail("a@.com")
  {
    IndexOfAt("a@.com", '@', 1);
    assert "a@.com"[2..] == ".com";
  }

  /** A dot with nothing after it is rejected. */
  lemma RejectsEmptyFinalLabel()
    ensures !ValidEmail("a@b.")
  {
    IndexOfAt("a@b.", '@', 1);
    assert "a@b."[2..] == "b.";
  }

  /** A space anywhere is rejected. */
  lemma RejectsSpace()
    ensures !ValidEmail("a b@c.d")
  {
    IndexOfAt("a b@c.d", '@', 3);
    assert "a b@c.d"[..3][1] == ' ';
  }
}
