/**
 * String.prototype.trim as the to-do store and the header form use it: strip
 * leading and trailing white space. Which characters count as white space is
 * the one predicate IsWhitespace; everything proved here holds whatever that
 * predicate contains.
 */
module Text {

  /**
   * The characters trim removes: ECMAScript's WhiteSpace (tab, vertical tab,
   * form feed, the byte order mark and the space separators of Unicode
   * category Zs) and LineTerminator (line feed, carriage return, line and
   * paragraph separator).
   */
  predicate IsWhitespace(c: char) {
    || c == '\t' || c == '\U{B}' || c == '\U{C}' || c == '\U{FEFF}'
    || c == '\n' || c == '\r' || c == '\U{2028}' || c == '\U{2029}'
    || c == ' ' || c == '\U{A0}' || c == '\U{1680}' || ('\U{2000}' <= c <= '\U{200A}')
    || c == '\U{202F}' || c == '\U{205F}' || c == '\U{3000}'
  }

  /** Every character of s is white space (true of the empty string). */
  ghost predicate AllWhitespace(s: string) {
    forall i :: 0 <= i < |s| ==> IsWhitespace(s[i])
  }

  /** s neither starts nor ends with white space. */
  ghost predicate HasNoEdgeWhitespace(s: string) {
    s == [] || (!IsWhitespace(s[0]) && !IsWhitespace(s[|s| - 1]))
  }

  /** How many characters of white space s starts with. */
  function LeadingWhitespace(s: string): (n: nat)
    ensures n <= |s|
    ensures forall i :: 0 <= i < n ==> IsWhitespace(s[i])
    ensures n == |s| || !IsWhitespace(s[n])
  {
    if s != [] && IsWhitespace(s[0]) then 1 + LeadingWhitespace(s[1..]) else 0
  }

  /** Where the white space that s ends with begins. */
  function TrailingWhitespaceStart(s: string): (n: nat)
    ensures n <= |s|
    ensures forall i :: n <= i < |s| ==> IsWhitespace(s[i])
    ensures n == 0 || !IsWhitespace(s[n - 1])
  {
    if s != [] && IsWhitespace(s[|s| - 1]) then TrailingWhitespaceStart(s[..|s| - 1]) else |s|
  }

  /** String.prototype.trim: s without its leading and its trailing white space. */
  function Trim(s: string): (r: string)
    ensures |r| <= |s|
    ensures HasNoEdgeWhitespace(r)
  {
    var rest := s[LeadingWhitespace(s)..];
    rest[..TrailingWhitespaceStart(rest)]
  }

  /** The leading white space of pre + rest is pre, when rest does not start with white space. */
  lemma {:induction false} LeadingWhitespaceOf(pre: string, rest: string)
    requires AllWhitespace(pre)
    requires rest == [] || !IsWhitespace(rest[0])
    ensures LeadingWhitespace(pre + rest) == |pre|
  {
    if pre == [] {
      assert pre + rest == rest;
    } else {
      assert (pre + rest)[0] == pre[0];
      assert (pre + rest)[1..] == pre[1..] + rest;
      LeadingWhitespaceOf(pre[1..], rest);
    }
  }

  /** The trailing white space of rest + post is post, when rest does not end with white space. */
  lemma {:induction false} TrailingWhitespaceOf(rest: string, post: string)
    requires AllWhitespace(post)
    requires rest == [] || !IsWhitespace(rest[|rest| - 1])
    ensures TrailingWhitespaceStart(rest + post) == |rest|
  {
    if post == [] {
      assert rest + post == rest;
    } else {
      var s := rest + post;
      assert s[|s| - 1] == post[|post| - 1];
      assert s[..|s| - 1] == rest + post[..|post| - 1];
      TrailingWhitespaceOf(rest, post[..|post| - 1]);
    }
  }

  /** trim yields the empty string exactly when its input is all white space. */
  lemma TrimEmptyIffBlank(s: string)
    ensures Trim(s) == [] <==> AllWhitespace(s)
  {
  }

  /**
   * trim is determined by its meaning: whenever s splits into white space, a
   * middle part that neither starts nor ends with white space, and white
   * space, trim returns that middle part.
   */
  lemma TrimCharacterization(pre: string, mid: string, post: string)
    requires AllWhitespace(pre) && AllWhitespace(post)
    requires HasNoEdgeWhitespace(mid)
    ensures Trim(pre + mid + post) == mid
  {
    var s := pre + mid + post;
    if mid == [] {
      assert s == pre + post;
      assert AllWhitespace(s) by {
        forall i | 0 <= i < |s| ensures IsWhitespace(s[i]) {
          if i < |pre| { assert s[i] == pre[i]; } else { assert s[i] == post[i - |pre|]; }
        }
      }
      TrimEmptyIffBlank(s);
    } else {
      assert s == pre + (mid + post);
      LeadingWhitespaceOf(pre, mid + post);
      assert s[|pre|..] == mid + post;
      TrailingWhitespaceOf(mid, post);
    }
  }

  /** Trimming an already trimmed string changes nothing. */
  lemma TrimIdempotent(s: string)
    ensures Trim(Trim(s)) == Trim(s)
  {
  }
}
