/** A stand-in for the URL check of the `img` field: a scheme (a letter,
    then letters, digits, `+`, `-` or `.`), then `://`, then at least one
    more character. */
module Urls {
  import opened Decimal

  predicate IsAsciiLetter(ch: char) { 'a' <= ch <= 'z' || 'A' <= ch <= 'Z' }

  predicate IsSchemeChar(ch: char)
  {
    IsAsciiLetter(ch) || IsDigit(ch) || ch == '+' || ch == '-' || ch == '.'
  }

  predicate IsScheme(s: string)
  {
    s != [] && IsAsciiLetter(s[0]) && forall i :: 1 <= i < |s| ==> IsSchemeChar(s[i])
  }

  /** Length of the longest prefix of `s` made of scheme characters. */
  function SchemeRun(s: string): (n: nat)
    ensures n <= |s|
    ensures forall i :: 0 <= i < n ==> IsSchemeChar(s[i])
    ensures n < |s| ==> !IsSchemeChar(s[n])
  {
    if s == [] || !IsSchemeChar(s[0]) then 0 else 1 + SchemeRun(s[1..])
  }

  /** Scans the scheme and checks what follows it. A URL starts with a
      letter and has at least five characters (`a://b`). */
  predicate IsUrl(s: string)
    ensures IsUrl(s) ==> |s| >= 5 && IsAsciiLetter(s[0])
  {
    s != [] && IsAsciiLetter(s[0]) &&
    var k := SchemeRun(s);
    k + 3 < |s| && s[k..k + 3] == "://"
  }

  /** The scanner accepts exactly the strings that split into a scheme,
      `://` and a non-empty remainder. */
  lemma {:induction false} IsUrlIffSplit(s: string)
    ensures IsUrl(s) <==> exists k :: 0 < k && k + 3 < |s| && IsScheme(s[..k]) && s[k..k + 3] == "://"
  {
    if IsUrl(s) {
      var k := SchemeRun(s);
      assert IsScheme(s[..k]);
    }
    if exists k :: 0 < k && k + 3 < |s| && IsScheme(s[..k]) && s[k..k + 3] == "://" {
      var k :| 0 < k && k + 3 < |s| && IsScheme(s[..k]) && s[k..k + 3] == "://";
      assert s[0] == s[..k][0];
      assert forall i :: 0 <= i < k ==> IsSchemeChar(s[..k][i]);
      assert s[k] == ':';
      var n := SchemeRun(s);
      assert n == k;
    }
  }

  /** A scheme, `://` and a non-empty remainder make a URL. */
  lemma {:induction false} UrlOfParts(scheme: string, rest: string)
    requires IsScheme(scheme) && rest != []
    ensures IsUrl(scheme + "://" + rest)
  {
    var s := scheme + "://" + rest;
    var k := |scheme|;
    assert s[..k] == scheme;
    assert s[k..k + 3] == "://";
    IsUrlIffSplit(s);
  }

  /** Text whose leading run of scheme characters ends in anything but `:`
      is not a URL. */
  lemma {:induction false} NotUrlWithoutColon(run: string, stop: char, rest: string)
    requires forall i :: 0 <= i < |run| ==> IsSchemeChar(run[i])
    requires !IsSchemeChar(stop) && stop != ':'
    ensures !IsUrl(run + [stop] + rest)
  {
    var s := run + [stop] + rest;
    assert s[|run|] == stop;
    assert forall i :: 0 <= i < |run| ==> s[i] == run[i];
    assert SchemeRun(s) == |run|;
  }
}
