/** The string helpers of the frontend's utility library: `truncateText`
    and `isValidEmail`. */
module Utils {
  import opened JsStrings

  /** The end index `String.prototype.slice(0, end)` uses on a string of
      length `len`: a negative end counts back from the end of the string,
      and either way the index is clamped into `0..len`. */
  function SliceEnd(len: nat, end: int): (r: nat)
    ensures r <= len
    ensures 0 <= end ==> r == if end <= len then end else len
    ensures end < 0 ==> r == if len + end < 0 then 0 else len + end
  {
    if end < 0 then (if len + end < 0 then 0 else len + end)
    else if end <= len then end
    else len
  }

  const Ellipsis: string := "..."

  /** `truncateText`: the text itself when it fits in `maxLength`, otherwise
      the slice up to `maxLength` followed by an ellipsis. */
  function TruncateText(text: string, maxLength: int): (r: string)
    // either the text itself, or a prefix of it followed by the ellipsis
    ensures r == text || (|r| >= 3 && r[..|r| - 3] <= text && r[|r| - 3..] == Ellipsis)
  {
    if |text| <= maxLength then text
    else text[..SliceEnd(|text|, maxLength)] + Ellipsis
  }

  /** A text that fits is returned unchanged; one that does not is cut to its
      first `maxLength` characters and the ellipsis appended, so the result
      is exactly three longer than `maxLength` and can be longer than the
      text itself. */
  lemma TruncateFacts(text: string, maxLength: int)
    ensures |text| <= maxLength ==> TruncateText(text, maxLength) == text
    ensures 0 <= maxLength < |text| ==>
      var r := TruncateText(text, maxLength);
      && |r| == maxLength + 3
      && r[..maxLength] == text[..maxLength]
      && r[maxLength..] == Ellipsis
      && (maxLength + 2 >= |text| ==> |r| > |text|)
    // a negative limit drops that many characters from the end
    ensures maxLength < 0 ==>
      var kept := if |text| + maxLength < 0 then 0 else |text| + maxLength;
      TruncateText(text, maxLength) == text[..kept] + Ellipsis
  {
  }

  /** For a limit of zero or more, the result starts with as much of the
      text as fits. */
  lemma TruncateKeepsPrefix(text: string, maxLength: int)
    requires 0 <= maxLength
    ensures var n := if |text| <= maxLength then |text| else maxLength;
      text[..n] <= TruncateText(text, maxLength)
  {
  }

  /** Truncating again to the same limit changes nothing. */
  lemma TruncateIdempotent(text: string, maxLength: int)
    requires 0 <= maxLength
    ensures TruncateText(TruncateText(text, maxLength), maxLength) == TruncateText(text, maxLength)
  {
    var r := TruncateText(text, maxLength);
    if maxLength < |text| {
      assert r[..maxLength] == text[..maxLength];
    }
  }

  // ---------------------------------------------------------------------------
  // isValidEmail

  /** A character `[^\s@]` matches. */
  predicate Plain(c: char) {
    !IsSpace(c) && c != '@'
  }

  /** Every character matches `[^\s@]`. */
  predicate AllPlain(s: string) {
    forall i :: 0 <= i < |s| ==> Plain(s[i])
  }

  /** A run that `[^\s@]+` matches in full. */
  predicate PlainRun(s: string) {
    |s| > 0 && AllPlain(s)
  }

  /** The pattern `^[^\s@]+@[^\s@]+\.[^\s@]+$` as written: the string splits
      at an `@` at index `at` and a `.` at index `dot` into three plain runs. */
  ghost predicate MatchesEmailPattern(s: string) {
    exists at, dot :: 0 <= at < dot < |s| && s[at] == '@' && s[dot] == '.'
      && PlainRun(s[..at]) && PlainRun(s[at + 1..dot]) && PlainRun(s[dot + 1..])
  }

  /** The index of the first `c` in `s`, or `|s|` when there is none. */
  function IndexOf(s: string, c: char): (r: nat)
    ensures r <= |s|
    ensures r < |s| ==> s[r] == c
    ensures forall i :: 0 <= i < r ==> s[i] != c
  {
    if s == [] then 0
    else if s[0] == c then 0
    else 1 + IndexOf(s[1..], c)
  }

  /** `isValidEmail`: the local part before the first `@` is a plain run, and
      the rest is plain with a `.` strictly inside it. */
  predicate IsValidEmail(email: string)
    // the shortest accepted address has the shape `a@b.c`
    ensures IsValidEmail(email) ==> 5 <= |email|
  {
    var at := IndexOf(email, '@');
    at < |email|
    && PlainRun(email[..at])
    && var domain := email[at + 1..];
    AllPlain(domain) && 2 < |domain| && IndexOf(domain[1..|domain| - 1], '.') < |domain| - 2
  }

  lemma ValidEmailMatches(email: string)
    requires IsValidEmail(email)
    ensures MatchesEmailPattern(email)
  {
    var at := IndexOf(email, '@');
    var domain := email[at + 1..];
    var dot := at + 2 + IndexOf(domain[1..|domain| - 1], '.');
    assert email[dot] == '.';
    assert email[at + 1..dot] == domain[..dot - at - 1];
    assert email[dot + 1..] == domain[dot - at..];
  }

  lemma MatchIsValidEmail(email: string, at: nat, dot: nat)
    requires 0 <= at < dot < |email| && email[at] == '@' && email[dot] == '.'
    requires PlainRun(email[..at]) && PlainRun(email[at + 1..dot]) && PlainRun(email[dot + 1..])
    ensures IsValidEmail(email)
  {
    assert forall i :: 0 <= i < at ==> email[i] == email[..at][i];
    assert IndexOf(email, '@') == at;
    var domain := email[at + 1..];
    forall i | 0 <= i < |domain|
      ensures Plain(domain[i])
    {
      if at + 1 + i < dot {
        assert domain[i] == email[at + 1..dot][i];
      } else if at + 1 + i > dot {
        assert domain[i] == email[dot + 1..][at + i - dot];
      }
    }
    var inner := domain[1..|domain| - 1];
    assert inner[dot - at - 2] == '.';
  }

  /** The check accepts exactly the strings the pattern matches. */
  lemma IsValidEmailMatchesPattern(email: string)
    ensures IsValidEmail(email) <==> MatchesEmailPattern(email)
  {
    if IsValidEmail(email) {
      ValidEmailMatches(email);
    }
    if MatchesEmailPattern(email) {
      var at, dot :| 0 <= at < dot < |email| && email[at] == '@' && email[dot] == '.'
        && PlainRun(email[..at]) && PlainRun(email[at + 1..dot]) && PlainRun(email[dot + 1..]);
      MatchIsValidEmail(email, at, dot);
    }
  }

  function CountChar(s: string, c: char): (r: nat)
    ensures r <= |s|
  {
    if s == [] then 0 else (if s[0] == c then 1 else 0) + CountChar(s[1..], c)
  }

  lemma CountCharAppend(a: string, b: string, c: char)
    ensures CountChar(a + b, c) == CountChar(a, c) + CountChar(b, c)
  {
    if a == [] {
      assert a + b == b;
    } else {
      assert (a + b)[1..] == a[1..] + b;
      CountCharAppend(a[1..], b, c);
    }
  }

  lemma CountCharAbsent(s: string, c: char)
    requires forall i :: 0 <= i < |s| ==> s[i] != c
    ensures CountChar(s, c) == 0
  {
    if s != [] {
      CountCharAbsent(s[1..], c);
    }
  }

  /** An accepted address holds exactly one `@`: the first one, since the
      domain after it is plain. */
  lemma ValidEmailOneAt(email: string)
    requires IsValidEmail(email)
    ensures CountChar(email, '@') == 1
  {
    var at := IndexOf(email, '@');
    var local, domain := email[..at], email[at + 1..];
    assert email == local + [email[at]] + domain;
    assert forall i :: 0 <= i < |local| ==> local[i] == email[i];
    CountCharAbsent(local, '@');
    CountCharAbsent(domain, '@');
    CountCharAppend(local + [email[at]], domain, '@');
    CountCharAppend(local, [email[at]], '@');
  }

  /** An accepted address holds no whitespace. */
  lemma ValidEmailNoSpace(email: string)
    requires IsValidEmail(email)
    ensures forall i :: 0 <= i < |email| ==> !IsSpace(email[i])
  {
    var at := IndexOf(email, '@');
    var local, domain := email[..at], email[at + 1..];
    forall i | 0 <= i < |email|
      ensures !IsSpace(email[i])
    {
      if i < at {
        assert email[i] == local[i];
      } else if i > at {
        assert email[i] == domain[i - at - 1];
      }
    }
  }

  /** Every accepted address holds exactly one `@` and no whitespace, and the
      empty string is rejected. */
  lemma ValidEmailShape(email: string)
    ensures IsValidEmail(email) ==>
      CountChar(email, '@') == 1 && forall i :: 0 <= i < |email| ==> !IsSpace(email[i])
    ensures !IsValidEmail("")
  {
    if IsValidEmail(email) {
      ValidEmailOneAt(email);
      ValidEmailNoSpace(email);
    }
  }
}
