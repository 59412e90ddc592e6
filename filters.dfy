/**
 * The input filters the index controller declares for its POST fields:
 * which fields pass through raw, which must be integers, and which must
 * match one of two anchored regular expressions, `/^[\w]+$/` and
 * `/^[\w-]+$/`.
 */
module Filters {
  import opened Optional

  /** The two bracket expressions used: `[\w]` and `[\w-]`. */
  datatype CharClass = Word | WordOrDash

  /** The three kinds of filter the table uses. */
  datatype Filter = ValidateInt | UnsafeRaw | ValidateRegexp(cls: CharClass)

  /** The filter table: the filter each POST field goes through, if any. */
  function FilterFor(field: string): (f: Option<Filter>)
    ensures f.Some? <==> field in {"team_id", "teamname", "password", "logo", "token", "names", "emails", "action"}
    ensures f == Some(ValidateInt) <==> field == "team_id"
    ensures f == Some(ValidateRegexp(Word)) <==> field == "token"
    ensures f == Some(ValidateRegexp(WordOrDash)) <==> field == "logo" || field == "action"
  {
    if field == "team_id" then Some(ValidateInt)
    else if field == "teamname" || field == "password" || field == "names" || field == "emails" then Some(UnsafeRaw)
    else if field == "logo" || field == "action" then Some(ValidateRegexp(WordOrDash))
    else if field == "token" then Some(ValidateRegexp(Word))
    else None
  }

  /** `\w` without the Unicode modifier is [A-Za-z0-9_]; `[\w-]` adds the dash. */
  predicate InClass(cls: CharClass, c: char) {
    ('a' <= c <= 'z') || ('A' <= c <= 'Z') || ('0' <= c <= '9') || c == '_'
    || (cls == WordOrDash && c == '-')
  }

  predicate AllIn(cls: CharClass, s: string) {
    forall i :: 0 <= i < |s| ==> InClass(cls, s[i])
  }

  /**
   * Where `$` holds in a pattern without the D (dollar-end-only) or m
   * modifier: at the end of the subject, or just before a newline that is
   * its last character.
   */
  predicate EndAnchorAt(s: string, k: nat) {
    k == |s| || (k + 1 == |s| && s[k] == '\n')
  }

  /** `/^[cls]+$/` matches `s`: a non-empty run of class characters from the start ends where `$` holds. */
  predicate Matches(cls: CharClass, s: string) {
    exists k :: 1 <= k <= |s| && AllIn(cls, s[..k]) && EndAnchorAt(s, k)
  }

  /** Whether a string value survives a string-valued filter. */
  predicate Passes(f: Filter, value: string)
    requires !f.ValidateInt?
  {
    match f
    case UnsafeRaw => true
    case ValidateRegexp(cls) => Matches(cls, value)
  }

  /**
   * The anchored pattern accepts exactly the non-empty strings of class
   * characters, and those same strings followed by one newline.
   */
  lemma {:induction false} MatchesExactly(cls: CharClass, s: string)
    ensures Matches(cls, s) <==>
      (s != [] && AllIn(cls, s)) || (|s| >= 2 && s[|s| - 1] == '\n' && AllIn(cls, s[..|s| - 1]))
  {
    if s != [] && AllIn(cls, s) {
      assert s[..|s|] == s;
      assert EndAnchorAt(s, |s|);
    } else if |s| >= 2 && s[|s| - 1] == '\n' && AllIn(cls, s[..|s| - 1]) {
      assert EndAnchorAt(s, |s| - 1);
    }
    if Matches(cls, s) {
      var k :| 1 <= k <= |s| && AllIn(cls, s[..k]) && EndAnchorAt(s, k);
      if k == |s| {
        assert s[..k] == s;
      }
    }
  }

  /**
   * On values without a newline, `logo` and `action` accept exactly the
   * non-empty strings over [A-Za-z0-9_-], and `token` exactly those over
   * [A-Za-z0-9_].
   */
  lemma FieldFilters(value: string)
    requires forall i :: 0 <= i < |value| ==> value[i] != '\n'
    ensures Passes(FilterFor("logo").value, value) <==> value != [] && AllIn(WordOrDash, value)
    ensures Passes(FilterFor("action").value, value) <==> value != [] && AllIn(WordOrDash, value)
    ensures Passes(FilterFor("token").value, value) <==> value != [] && AllIn(Word, value)
  {
    MatchesExactly(WordOrDash, value);
    MatchesExactly(Word, value);
  }

  /** Because of `$`, a value that passes still passes with one newline appended. */
  lemma TrailingNewlinePasses(cls: CharClass, value: string)
    requires value != [] && AllIn(cls, value)
    ensures Matches(cls, value + "\n")
  {
    MatchesExactly(cls, value + "\n");
    assert (value + "\n")[..|value|] == value;
  }

  /** Every token the filter accepts is also an acceptable logo or action, but not the other way round. */
  lemma TokenStricterThanLogo(value: string)
    ensures Matches(Word, value) ==> Matches(WordOrDash, value)
    ensures Matches(WordOrDash, "-") && !Matches(Word, "-")
  {
    MatchesExactly(Word, value);
    MatchesExactly(WordOrDash, value);
    MatchesExactly(Word, "-");
    MatchesExactly(WordOrDash, "-");
    assert !InClass(Word, "-"[0]);
  }
}
