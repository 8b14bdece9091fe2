/**
 * The string clean-up the services apply before they compare (ASCII strip and upper-case), and the
 * order of strings.
 */
module Text {
  predicate IsSpace(c: char) {
    c == ' ' || c == '\t' || c == '\n' || c == '\r'
  }

  function StripLeft(s: string): string {
    if s != "" && IsSpace(s[0]) then StripLeft(s[1..]) else s
  }

  function StripRight(s: string): string {
    if s != "" && IsSpace(s[|s| - 1]) then StripRight(s[..|s| - 1]) else s
  }

  function Strip(s: string): string {
    StripRight(StripLeft(s))
  }

  function UpperChar(c: char): char {
    if 'a' <= c <= 'z' then (c as int - 'a' as int + 'A' as int) as char else c
  }

  function Upper(s: string): string {
    seq(|s|, i requires 0 <= i < |s| => UpperChar(s[i]))
  }

  /** A string that Python's `a or b` prefers: `a` unless it is empty. */
  function Else(a: string, b: string): string {
    if a != "" then a else b
  }

  /** Lexicographic order of strings. */
  predicate TextBelow(a: string, b: string) {
    b != "" && (a == "" || a[0] < b[0] || (a[0] == b[0] && TextBelow(a[1..], b[1..])))
  }

  lemma {:induction false} TextIsTotal(a: string, b: string)
    ensures TextBelow(a, b) || TextBelow(b, a) || a == b
    ensures !(TextBelow(a, b) && TextBelow(b, a)) && !TextBelow(a, a)
  {
    if a != "" && b != "" {
      TextIsTotal(a[1..], b[1..]);
      TextIsTotal(a[1..], a[1..]);
      if a[0] == b[0] && a[1..] == b[1..] {
        assert a == [a[0]] + a[1..] && b == [b[0]] + b[1..];
      }
    } else if a != "" {
      TextIsTotal(a[1..], a[1..]);
    }
  }

  lemma {:induction false} TextIsTransitive(a: string, b: string, c: string)
    requires TextBelow(a, b) && TextBelow(b, c)
    ensures TextBelow(a, c)
  {
    if a != "" && a[0] == b[0] == c[0] {
      TextIsTransitive(a[1..], b[1..], c[1..]);
    }
  }

  // ---------------------------------------------------------------- what the helpers do, character by character

  predicate AllIn(s: string, chars: set<char>) {
    forall c | c in s :: c in chars
  }

  const BLANKS := {' ', '\t', '\n', '\r'}

  lemma {:induction false} StripLeftMeans(s: string) returns (before: string)
    ensures s == before + StripLeft(s) && AllIn(before, BLANKS)
    ensures StripLeft(s) == "" || StripLeft(s)[0] !in BLANKS
  {
    if s != "" && IsSpace(s[0]) {
      before := StripLeftMeans(s[1..]);
      before := [s[0]] + before;
    } else {
      before := "";
    }
  }

  lemma {:induction false} StripRightMeans(s: string) returns (after: string)
    ensures s == StripRight(s) + after && AllIn(after, BLANKS)
    ensures StripRight(s) == "" || StripRight(s)[|StripRight(s)| - 1] !in BLANKS
  {
    if s != "" && IsSpace(s[|s| - 1]) {
      after := StripRightMeans(s[..|s| - 1]);
      after := after + [s[|s| - 1]];
    } else {
      after := "";
    }
  }

  /** Stripping takes blanks off both ends, and leaves none there. */
  lemma StripMeans(s: string)
    ensures exists before: string, after: string ::
              s == before + Strip(s) + after && AllIn(before, BLANKS) && AllIn(after, BLANKS)
    ensures var r := Strip(s); r == "" || (r[0] !in BLANKS && r[|r| - 1] !in BLANKS)
  {
    var before := StripLeftMeans(s);
    var after := StripRightMeans(StripLeft(s));
    assert s == before + Strip(s) + after;
    assert Strip(s) != "" ==> Strip(s)[0] == StripLeft(s)[0];
  }

  /** Upper-casing moves each ASCII small letter to its capital and leaves every other character. */
  lemma UpperMeans(s: string)
    ensures |Upper(s)| == |s|
    ensures forall i | 0 <= i < |s| ::
              if 'a' <= s[i] <= 'z' then 'A' <= Upper(s)[i] <= 'Z' && s[i] - Upper(s)[i] == 'a' - 'A'
              else Upper(s)[i] == s[i]
  {
  }

  /** A text is below another if it is a proper beginning of it, or has the lesser character where they first differ. */
  lemma {:induction false} TextBelowMeans(a: string, b: string)
    ensures TextBelow(a, b) <==>
              (a < b || exists k :: 0 <= k < |a| && k < |b| && a[..k] == b[..k] && a[k] < b[k])
  {
    if a != "" && b != "" {
      TextBelowMeans(a[1..], b[1..]);
      if a[0] == b[0] {
        assert a == [a[0]] + a[1..] && b == [b[0]] + b[1..];
        if k :| 0 <= k < |a[1..]| && k < |b[1..]| && a[1..][..k] == b[1..][..k] && a[1..][k] < b[1..][k] {
          assert a[..k + 1] == [a[0]] + a[1..][..k] && b[..k + 1] == [b[0]] + b[1..][..k];
          assert a[k + 1] < b[k + 1];
        }
        if k :| 0 <= k < |a| && k < |b| && a[..k] == b[..k] && a[k] < b[k] {
          assert k > 0 && a[1..][..k - 1] == a[..k][1..] && b[1..][..k - 1] == b[..k][1..];
          assert a[1..][k - 1] < b[1..][k - 1];
        }
      } else {
        assert a[..0] == b[..0];
        if k :| 0 <= k < |a| && k < |b| && a[..k] == b[..k] && a[k] < b[k] {
          assert k > 0 ==> a[..k][0] == b[..k][0];
        }
      }
    }
  }

  /** `r` is the first of the choices that is not empty, or empty if all are. */
  ghost predicate FirstGiven(choices: seq<string>, r: string) {
    if r == "" then forall c | c in choices :: c == ""
    else exists i :: 0 <= i < |choices| && choices[i] == r && forall j | 0 <= j < i :: choices[j] == ""
  }
}
