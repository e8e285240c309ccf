/** Python's `str.strip()`, `str.title()` and `str.lower()`, for ASCII characters.
    A character outside ASCII is treated as neither whitespace nor cased. */
module PyText {

  /** `str.isspace` on ASCII: space, \t \n \v \f \r and the separators 0x1C-0x1F. */
  predicate IsSpace(c: char) {
    c == ' ' || 9 <= c as int <= 13 || 28 <= c as int <= 31
  }

  predicate IsUpper(c: char) { 'A' <= c <= 'Z' }
  predicate IsLower(c: char) { 'a' <= c <= 'z' }

  /** A cased character in the sense of `str.title`: an ASCII letter. */
  predicate IsCased(c: char) { IsUpper(c) || IsLower(c) }

  function ToLower(c: char): (d: char)
    ensures IsCased(d) == IsCased(c) && IsSpace(d) == IsSpace(c)
    ensures !IsUpper(d)
    ensures !IsCased(c) ==> d == c
  {
    if IsUpper(c) then (c as int + 32) as char else c
  }

  function ToUpper(c: char): (d: char)
    ensures IsCased(d) == IsCased(c) && IsSpace(d) == IsSpace(c)
    ensures !IsLower(d)
    ensures !IsCased(c) ==> d == c
  {
    if IsLower(c) then (c as int - 32) as char else c
  }

  predicate AllSpace(s: string) {
    forall i :: 0 <= i < |s| ==> IsSpace(s[i])
  }

  /** Neither end of `s` is whitespace. */
  predicate IsStripped(s: string) {
    s == [] || (!IsSpace(s[0]) && !IsSpace(s[|s| - 1]))
  }

  /** The number of whitespace characters `str.strip` removes from the front. */
  function LeadingSpace(s: string): (n: nat)
    ensures n <= |s| && AllSpace(s[..n])
    ensures n < |s| ==> !IsSpace(s[n])
  {
    if s != [] && IsSpace(s[0]) then
      var m := LeadingSpace(s[1..]);
      assert s[1..][..m] == s[1..m + 1];
      1 + m
    else 0
  }

  /** The length that remains once `str.strip` removes whitespace from the back. */
  function TrailingStart(s: string): (m: nat)
    ensures m <= |s| && AllSpace(s[m..])
    ensures m > 0 ==> !IsSpace(s[m - 1])
  {
    if s != [] && IsSpace(s[|s| - 1]) then
      var init := s[..|s| - 1];
      var m := TrailingStart(init);
      assert forall i :: m <= i < |s| - 1 ==> s[i] == init[m..][i - m];
      assert m > 0 ==> s[m - 1] == init[m - 1];
      m
    else |s|
  }

  /** `s.strip()`: `s` without its leading and trailing whitespace. */
  function Strip(s: string): (t: string)
    ensures IsStripped(t)
    ensures exists i, j :: 0 <= i <= j <= |s| && t == s[i..j] && AllSpace(s[..i]) && AllSpace(s[j..])
  {
    var i := LeadingSpace(s);
    var rest := s[i..];
    var j := i + TrailingStart(rest);
    assert rest[..j - i] == s[i..j] && rest[j - i..] == s[j..];
    s[i..j]
  }

  /** `str.title` with the casedness of the previous character given:
      a cased character after a cased one is lowered, any other is raised. */
  function TitleFrom(s: string, prevCased: bool): (t: string)
    ensures |t| == |s|
  {
    if s == [] then []
    else [if prevCased then ToLower(s[0]) else ToUpper(s[0])] + TitleFrom(s[1..], IsCased(s[0]))
  }

  /** Whether position `i` of `s` starts a word for `str.title`. */
  predicate StartsWord(s: string, i: nat)
    requires i < |s|
  {
    i == 0 || !IsCased(s[i - 1])
  }

  /** `s.title()`: the first letter of every run of letters upper-cased, the other letters lower-cased. */
  function Title(s: string): (t: string)
    ensures |t| == |s|
    ensures forall i :: 0 <= i < |s| ==> t[i] == if StartsWord(s, i) then ToUpper(s[i]) else ToLower(s[i])
  {
    TitleFromAt(s, false);
    TitleFrom(s, false)
  }

  lemma {:induction false} TitleFromAt(s: string, prevCased: bool)
    ensures forall i :: 0 <= i < |s| ==>
      TitleFrom(s, prevCased)[i] ==
        if (if i == 0 then prevCased else IsCased(s[i - 1])) then ToLower(s[i]) else ToUpper(s[i])
  {
    if s != [] {
      TitleFromAt(s[1..], IsCased(s[0]));
      assert TitleFrom(s, prevCased)[0] == if prevCased then ToLower(s[0]) else ToUpper(s[0]);
      forall i | 0 < i < |s|
        ensures TitleFrom(s, prevCased)[i] ==
          if IsCased(s[i - 1]) then ToLower(s[i]) else ToUpper(s[i])
      {
        assert TitleFrom(s, prevCased)[i] == TitleFrom(s[1..], IsCased(s[0]))[i - 1];
        assert s[1..][i - 1] == s[i];
        assert i - 1 > 0 ==> s[1..][i - 2] == s[i - 1];
      }
    }
  }

  /** `s.lower()`. */
  function Lower(s: string): (t: string)
    ensures |t| == |s|
    ensures forall i :: 0 <= i < |s| ==> t[i] == ToLower(s[i])
  {
    seq(|s|, i requires 0 <= i < |s| => ToLower(s[i]))
  }

  /** The normalisation `location.strip().title()` applied to a location. */
  function NormalizeLocation(s: string): string {
    Title(Strip(s))
  }

  /** Title-casing only changes the case of letters. */
  lemma TitleOnlyChangesCase(s: string)
    ensures Lower(Title(s)) == Lower(s)
  {
  }

  /** `str.title` is idempotent. */
  lemma TitleIdempotent(s: string)
    ensures Title(Title(s)) == Title(s)
  {
    var t := Title(s);
    forall i | 0 <= i < |s|
      ensures Title(t)[i] == t[i]
    {
      assert i > 0 ==> IsCased(t[i - 1]) == IsCased(s[i - 1]);
    }
  }

  /** `str.strip` leaves an already stripped string alone. */
  lemma StripStripped(s: string)
    requires IsStripped(s)
    ensures Strip(s) == s
  {
    if s != [] {
      assert LeadingSpace(s) == 0;
      assert TrailingStart(s) == |s|;
    }
  }

  /** `str.strip` yields the empty string exactly when every character is whitespace. */
  lemma {:induction false} StripEmptyIff(s: string)
    ensures Strip(s) == [] <==> AllSpace(s)
  {
    var i, j :| 0 <= i <= j <= |s| && Strip(s) == s[i..j] && AllSpace(s[..i]) && AllSpace(s[j..]);
    if Strip(s) == [] {
      forall k | 0 <= k < |s| ensures IsSpace(s[k]) {
        if k < i { assert s[..i][k] == s[k]; } else { assert s[j..][k - j] == s[k]; }
      }
    }
  }

  /** Title-casing keeps every character's whitespace-ness, so a stripped string stays stripped. */
  lemma TitleKeepsStripped(s: string)
    requires IsStripped(s)
    ensures IsStripped(Title(s))
  {
  }

  /** Re-normalising a normalised location leaves it unchanged. */
  lemma {:induction false} NormalizeIdempotent(s: string)
    ensures NormalizeLocation(NormalizeLocation(s)) == NormalizeLocation(s)
  {
    var t := Strip(s);
    TitleKeepsStripped(t);
    StripStripped(Title(t));
    TitleIdempotent(t);
  }

  /** The normalised location is empty exactly when the raw location is all whitespace. */
  lemma {:induction false} NormalizeEmptyIff(s: string)
    ensures NormalizeLocation(s) == [] <==> AllSpace(s)
  {
    StripEmptyIff(s);
  }
}
