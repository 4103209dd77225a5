/** The library string operations that the modelled code calls. */
module Strings {

  /** The Unicode White_Space set, which is what `trim` and `split_whitespace` test. */
  predicate IsWhitespace(c: char) {
    '\t' <= c <= '\r' || c == ' ' || c == '\U{85}' || c == '\U{A0}' || c == '\U{1680}'
    || '\U{2000}' <= c <= '\U{200A}' || c == '\U{2028}' || c == '\U{2029}' || c == '\U{202F}'
    || c == '\U{205F}' || c == '\U{3000}'
  }

  function TrimStart(s: string): string {
    if s != "" && IsWhitespace(s[0]) then TrimStart(s[1..]) else s
  }

  function TrimEnd(s: string): string {
    if s != "" && IsWhitespace(s[|s| - 1]) then TrimEnd(s[..|s| - 1]) else s
  }

  function Trim(s: string): string {
    TrimEnd(TrimStart(s))
  }

  /** `trim_end_matches('\n')`: all newlines at the end go, and nothing else. */
  function TrimEndNewlines(s: string): (t: string)
    ensures t <= s && forall i :: |t| <= i < |s| ==> s[i] == '\n'
    ensures t == "" || t[|t| - 1] != '\n'
  {
    if s != "" && s[|s| - 1] == '\n' then TrimEndNewlines(s[..|s| - 1]) else s
  }

  /** The longest prefix without whitespace. */
  function TakeWord(s: string): string {
    if s == "" || IsWhitespace(s[0]) then "" else [s[0]] + TakeWord(s[1..])
  }

  /** `split_whitespace().next().unwrap_or("")` */
  function FirstWord(s: string): string {
    TakeWord(TrimStart(s))
  }

  function Digit(d: nat): (c: char)
    requires d < 10
    ensures '0' <= c <= '9'
  {
    "0123456789"[d]
  }

  function Decimal(n: nat): (s: string)
    ensures s != "" && forall i :: 0 <= i < |s| ==> '0' <= s[i] <= '9'
  {
    if n < 10 then [Digit(n)] else Decimal(n / 10) + [Digit(n % 10)]
  }

  function Join(parts: seq<string>, sep: string): string {
    if parts == [] then ""
    else if |parts| == 1 then parts[0]
    else parts[0] + sep + Join(parts[1..], sep)
  }

  function Count(s: string, c: char): nat {
    if s == "" then 0 else (if s[0] == c then 1 else 0) + Count(s[1..], c)
  }

  /** `split(c)`: always at least one piece. */
  function Split(s: string, c: char): (parts: seq<string>)
    ensures |parts| == Count(s, c) + 1
    ensures forall i :: 0 <= i < |parts| ==> c !in parts[i]
  {
    if s == "" then [""]
    else
      var tail := Split(s[1..], c);
      if s[0] == c then [""] + tail else [[s[0]] + tail[0]] + tail[1..]
  }

  // ---- what trimming and words are ----

  /** All of the text between two positions is white. */
  predicate White(s: string, lo: int, hi: int) {
    0 <= lo <= hi <= |s| && forall i :: lo <= i < hi ==> IsWhitespace(s[i])
  }

  /** The 25 code points with the White_Space property. */
  lemma WhitespaceIs(c: char)
    ensures IsWhitespace(c) <==>
            c in "\t\n\U{B}\U{C}\r \U{85}\U{A0}\U{1680}\U{2000}\U{2001}\U{2002}\U{2003}\U{2004}\U{2005}\U{2006}"
                 + "\U{2007}\U{2008}\U{2009}\U{200A}\U{2028}\U{2029}\U{202F}\U{205F}\U{3000}"
  {
  }

  /** `t` is `s` without the white around it. */
  predicate IsTrimmed(s: string, t: string, lead: nat) {
    lead + |t| <= |s| && t == s[lead..lead + |t|] && White(s, 0, lead) && White(s, lead + |t|, |s|)
    && (t != "" ==> !IsWhitespace(t[0]) && !IsWhitespace(t[|t| - 1]))
  }

  lemma {:induction false} TrimStartIs(s: string)
    ensures var t := TrimStart(s);
            |t| <= |s| && t == s[|s| - |t|..] && White(s, 0, |s| - |t|) && (t != "" ==> !IsWhitespace(t[0]))
    decreases s
  {
    if s != "" && IsWhitespace(s[0]) {
      TrimStartIs(s[1..]);
      assert forall i :: 0 < i < |s| ==> s[i] == s[1..][i - 1];
    }
  }

  lemma {:induction false} TrimEndIs(s: string)
    ensures var t := TrimEnd(s); t <= s && White(s, |t|, |s|) && (t != "" ==> !IsWhitespace(t[|t| - 1]))
    decreases s
  {
    if s != "" && IsWhitespace(s[|s| - 1]) {
      TrimEndIs(s[..|s| - 1]);
    }
  }

  /** `trim` takes the white at both ends and nothing else. */
  lemma TrimIs(s: string)
    ensures exists lead: nat :: IsTrimmed(s, Trim(s), lead)
    ensures Trim(s) == "" <==> White(s, 0, |s|)
  {
    TrimStartIs(s);
    var u := TrimStart(s);
    TrimEndIs(u);
    var t, lead := Trim(s), |s| - |u|;
    assert forall i :: lead <= i < |s| ==> s[i] == u[i - lead];
    assert IsTrimmed(s, t, lead);
    if t != "" {
      assert s[lead] == t[0];
    }
  }

  /** `w` is the first run of non-white in `s`, empty when there is none. */
  predicate IsFirstWord(s: string, w: string, lead: nat) {
    lead + |w| <= |s| && w == s[lead..lead + |w|] && White(s, 0, lead)
    && (forall i :: 0 <= i < |w| ==> !IsWhitespace(w[i]))
    && (lead + |w| < |s| ==> w != "" && IsWhitespace(s[lead + |w|]))
  }

  lemma {:induction false} TakeWordIs(s: string)
    ensures var w := TakeWord(s);
            w <= s && (forall i :: 0 <= i < |w| ==> !IsWhitespace(w[i]))
            && (|w| < |s| ==> IsWhitespace(s[|w|]))
  {
    if s != "" && !IsWhitespace(s[0]) {
      TakeWordIs(s[1..]);
      assert s == [s[0]] + s[1..];
    }
  }

  lemma FirstWordIs(s: string)
    ensures exists lead: nat :: IsFirstWord(s, FirstWord(s), lead)
  {
    TrimStartIs(s);
    var u := TrimStart(s);
    TakeWordIs(u);
    var w, lead := TakeWord(u), |s| - |u|;
    assert |w| < |u| ==> u[|w|] == s[lead + |w|];
    assert u != "" ==> w != "";
    assert FirstWord(s) == w;
    assert IsFirstWord(s, FirstWord(s), lead);
  }

  // ---- numbers ----

  /** The number a decimal numeral stands for. */
  function Value(s: string): int {
    if s == "" then 0 else 10 * Value(s[..|s| - 1]) + (s[|s| - 1] as int - '0' as int)
  }

  /** `to_string` of an integer: the numeral of its value, without leading zeros. */
  lemma {:induction false} DecimalIs(n: nat)
    ensures Value(Decimal(n)) == n && (n > 0 ==> Decimal(n)[0] != '0')
  {
    if n >= 10 {
      DecimalIs(n / 10);
      assert Decimal(n)[..|Decimal(n)| - 1] == Decimal(n / 10);
    } else {
      assert Decimal(n)[..0] == "";
    }
  }

  predicate StartsWith(s: string, p: string) {
    |p| <= |s| && s[..|p|] == p
  }

  lemma {:induction false} JoinSplit(s: string, c: char)
    ensures Join(Split(s, c), [c]) == s
  {
    if s != "" {
      JoinSplit(s[1..], c);
      var tail := Split(s[1..], c);
      if s[0] == c {
        assert Split(s, c)[1..] == tail;
      } else {
        assert Split(s, c)[1..] == tail[1..];
        var after := Join(tail[1..], [c]);
        assert [s[0]] + tail[0] + [c] + after == [s[0]] + (tail[0] + [c] + after);
      }
      assert s == [s[0]] + s[1..];
    }
  }

  lemma {:induction false} SplitConcat(a: string, b: string, c: char)
    ensures Split(a + [c] + b, c) == Split(a, c) + Split(b, c)
  {
    var whole := a + [c] + b;
    if a == "" {
      assert whole[1..] == b;
    } else {
      assert whole[1..] == a[1..] + [c] + b && whole[0] == a[0];
      SplitConcat(a[1..], b, c);
    }
  }

  lemma {:induction false} SplitWhole(s: string, c: char)
    requires c !in s
    ensures Split(s, c) == [s]
  {
    if s != "" {
      SplitWhole(s[1..], c);
      assert s == [s[0]] + s[1..];
    }
  }

  lemma {:induction false} JoinConcat(a: seq<string>, b: seq<string>, sep: string)
    requires a != [] && b != []
    ensures Join(a + b, sep) == Join(a, sep) + sep + Join(b, sep)
  {
    if |a| == 1 {
      assert (a + b)[1..] == b;
    } else {
      assert (a + b)[1..] == a[1..] + b;
      JoinConcat(a[1..], b, sep);
    }
  }
}
