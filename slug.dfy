/** The slug validator `^[a-zA-Z0-9]([a-zA-Z0-9._-]*[a-zA-Z0-9])?$` that
    group and domain names go through, applied with Python's `re.search`.
    Python's `$` also matches just before a single trailing newline, so a
    slug followed by one "\n" is accepted as well. */
module Slug {

  predicate IsAsciiAlnum(c: char)
  {
    ('a' <= c <= 'z') || ('A' <= c <= 'Z') || ('0' <= c <= '9')
  }

  /** The inner character class `[a-zA-Z0-9._-]`. */
  predicate IsSlugChar(c: char)
  {
    IsAsciiAlnum(c) || c == '.' || c == '_' || c == '-'
  }

  /** The regular expression read left to right: one alphanumeric, then any
      run of slug characters; `lastAlnum` says whether the last character read
      was alphanumeric, which the optional group needs at its end. */
  predicate TailMatches(t: string, lastAlnum: bool)
  {
    if t == [] then lastAlnum else IsSlugChar(t[0]) && TailMatches(t[1..], IsAsciiAlnum(t[0]))
  }

  /** The pattern between `^` and `$` matches all of `s`. */
  predicate BodyMatches(s: string)
  {
    |s| >= 1 && IsAsciiAlnum(s[0]) && TailMatches(s[1..], true)
  }

  /** `_rx_slug.search(s) is not None`. */
  predicate SearchSlug(s: string)
  {
    BodyMatches(s) || (|s| >= 1 && s[|s| - 1] == '\n' && BodyMatches(s[..|s| - 1]))
  }

  /** The declarative reading: non-empty, alphanumeric first and last
      characters, slug characters in between. */
  predicate IsSlugShape(s: string)
  {
    |s| >= 1 && IsAsciiAlnum(s[0]) && IsAsciiAlnum(s[|s| - 1]) &&
    forall i :: 0 < i < |s| - 1 ==> IsSlugChar(s[i])
  }

  lemma {:induction false} TailMatchesShape(t: string, lastAlnum: bool)
    ensures TailMatches(t, lastAlnum) <==>
      (forall i :: 0 <= i < |t| ==> IsSlugChar(t[i])) && (if t == [] then lastAlnum else IsAsciiAlnum(t[|t| - 1]))
  {
    if t != [] {
      TailMatchesShape(t[1..], IsAsciiAlnum(t[0]));
      assert forall i :: 1 <= i < |t| ==> t[i] == t[1..][i - 1];
    }
  }

  /** The matcher accepts exactly the slug shape. */
  lemma BodyMatchesIsShape(s: string)
    ensures BodyMatches(s) <==> IsSlugShape(s)
  {
    if |s| >= 1 {
      TailMatchesShape(s[1..], true);
      assert forall i :: 1 <= i < |s| ==> s[i] == s[1..][i - 1];
    }
  }

  /** What `search` accepts: a slug, or a slug followed by exactly one "\n". */
  lemma SearchSlugCharacterised(s: string)
    ensures SearchSlug(s) <==>
      IsSlugShape(s) || (|s| >= 2 && s[|s| - 1] == '\n' && IsSlugShape(s[..|s| - 1]))
  {
    BodyMatchesIsShape(s);
    if |s| >= 1 {
      BodyMatchesIsShape(s[..|s| - 1]);
    }
  }

  /** A single alphanumeric character is a slug, and so are names with
      inner separators. */
  lemma SlugAccepted()
    ensures SearchSlug("a") && SearchSlug("default") && SearchSlug("my-group.v2_x")
  {
    ShapeIsAccepted("a");
    ShapeIsAccepted("default");
    ShapeIsAccepted("my-group.v2_x");
  }

  lemma ShapeIsAccepted(s: string)
    requires IsSlugShape(s)
    ensures SearchSlug(s)
  {
    BodyMatchesIsShape(s);
  }

  /** A slug followed by one newline slips through, two newlines do not. */
  lemma TrailingNewlineAccepted()
    ensures SearchSlug("group\n") && !SearchSlug("a\n\n")
  {
    SearchSlugCharacterised("group\n");
    assert "group\n"[..5] == "group";
    SearchSlugCharacterised("a\n\n");
    assert "a\n\n"[..2] == "a\n";
  }

  /** The empty name, a leading or trailing separator and an inner space are
      rejected. */
  lemma SlugRejected()
    ensures !SearchSlug("") && !SearchSlug("-a") && !SearchSlug("a-") && !SearchSlug("a b")
  {
    SearchSlugCharacterised("");
    SearchSlugCharacterised("-a");
    SearchSlugCharacterised("a-");
    SearchSlugCharacterised("a b");
  }

  /** Any accepted name without a newline in it is a slug proper. */
  lemma NewlineFreeSearchIsShape(s: string)
    requires forall i :: 0 <= i < |s| ==> s[i] != '\n'
    ensures SearchSlug(s) <==> IsSlugShape(s)
  {
    SearchSlugCharacterised(s);
  }
}
