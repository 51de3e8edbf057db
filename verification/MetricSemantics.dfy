/** How a finding's free-form status is read: open, closed, risk-accepted, or blank. */
module MetricSemantics {
  import opened Text

  predicate IsLower(c: char) {
    'a' <= c <= 'z'
  }

  predicate IsUpper(c: char) {
    'A' <= c <= 'Z'
  }

  predicate IsJoiner(c: char) {
    c == '_' || c == '-'
  }

  /** A blank between every lowercase letter and the uppercase letter after it. */
  function CamelSplit(s: string): string {
    if |s| < 2 then s
    else if IsLower(s[0]) && IsUpper(s[1]) then [s[0], ' '] + CamelSplit(s[1..])
    else [s[0]] + CamelSplit(s[1..])
  }

  /** Each maximal run of `which` becomes one blank. */
  function Collapse(s: string, which: char -> bool, inRun: bool): string {
    if s == [] then []
    else if which(s[0]) then (if inRun then [] else [' ']) + Collapse(s[1..], which, true)
    else [s[0]] + Collapse(s[1..], which, false)
  }

  function NormalizeStatus(status: string): string {
    Lower(Collapse(Collapse(CamelSplit(Trim(status)), IsJoiner, false), IsSpace, false))
  }

  const RISK_ACCEPTED := "risk accepted"

  const CLOSED: seq<string> := [
    "resolved", "false positive", "duplicate", "not applicable", "approved", "suppressed",
    "closed", "ignored", "auto ignored"
  ]

  /** The four readings of a normalised status. */
  datatype Reading = Blank | Closed | RiskAccepted | Open

  predicate IsClosedKey(key: string) {
    key in CLOSED
  }

  function Read(key: string): Reading {
    if key == "" then Blank
    else if IsClosedKey(key) then Closed
    else if key == RISK_ACCEPTED then RiskAccepted
    else Open
  }

  predicate IsClosedDisposition(status: string) {
    IsClosedKey(NormalizeStatus(status))
  }

  predicate IsRiskAccepted(status: string) {
    NormalizeStatus(status) == RISK_ACCEPTED
  }

  predicate IsOpenRisk(status: string) {
    var n := NormalizeStatus(status);
    |n| > 0 && !IsClosedKey(n) && n != RISK_ACCEPTED
  }

  predicate IsBlank(status: string) {
    NormalizeStatus(status) == ""
  }

  lemma ClosedKeys()
    ensures !IsClosedKey("") && !IsClosedKey(RISK_ACCEPTED)
  {
    assert forall i :: 0 <= i < |CLOSED| ==> CLOSED[i] != "";
    assert RISK_ACCEPTED[1] == 'i' && RISK_ACCEPTED[0] == 'r' && CLOSED[0][1] == 'e';
    assert forall i :: 0 < i < |CLOSED| ==> CLOSED[i][0] != 'r';
  }

  /** The three predicates and blankness are the four readings: exactly one of them holds. */
  lemma ExactlyOneReading(status: string)
    ensures var r := Read(NormalizeStatus(status));
            && (IsBlank(status) <==> r == Blank)
            && (IsClosedDisposition(status) <==> r == Closed)
            && (IsRiskAccepted(status) <==> r == RiskAccepted)
            && (IsOpenRisk(status) <==> r == Open)
  {
    ClosedKeys();
  }

  /** Words parted by single blanks, with no capital right after a small letter. */
  predicate Spaced(s: string) {
    && s != [] && !IsSpace(s[0]) && !IsSpace(s[|s| - 1])
    && (forall i :: 0 <= i < |s| ==> IsLower(s[i]) || IsUpper(s[i]) || s[i] == ' ')
    && (forall i :: 0 < i < |s| ==> !(IsLower(s[i - 1]) && IsUpper(s[i])) && !(s[i - 1] == ' ' && s[i] == ' '))
  }

  lemma {:induction false} CamelSplitFixed(s: string)
    requires forall i :: 0 < i < |s| ==> !(IsLower(s[i - 1]) && IsUpper(s[i]))
    ensures CamelSplit(s) == s
  {
    if |s| >= 2 {
      assert s[0] == s[1 - 1];
      CamelSplitFixed(s[1..]);
    }
  }

  lemma {:induction false} CollapseFixed(s: string, which: char -> bool, inRun: bool)
    requires forall i :: 0 <= i < |s| && which(s[i]) ==> s[i] == ' '
    requires forall i :: 0 < i < |s| ==> !(which(s[i - 1]) && which(s[i]))
    requires inRun && s != [] ==> !which(s[0])
    ensures Collapse(s, which, inRun) == s
  {
    if s != [] {
      assert |s| > 1 ==> !(which(s[1 - 1]) && which(s[1]));
      CollapseFixed(s[1..], which, which(s[0]));
    }
  }

  /** Of such a status only the case is normalised. */
  lemma SpacedStatus(s: string)
    requires Spaced(s)
    ensures NormalizeStatus(s) == Lower(s)
  {
    TrimFixed(s);
    CamelSplitFixed(s);
    CollapseFixed(s, IsJoiner, false);
    CollapseFixed(s, IsSpace, false);
  }

  // ---------------------------------------------------------------------------
  // Which statuses mean what
  // ---------------------------------------------------------------------------

  lemma OneOfNine(key: string, keys: seq<string>)
    requires |keys| == 9
    ensures key in keys <==> || key == keys[0] || key == keys[1] || key == keys[2] || key == keys[3] || key == keys[4]
                             || key == keys[5] || key == keys[6] || key == keys[7] || key == keys[8]
  {
  }

  /** The closed statuses, once normalised. */
  lemma ClosedTexts(key: string)
    ensures IsClosedKey(key)
            <==> || key == "resolved" || key == "false positive" || key == "duplicate" || key == "not applicable"
                 || key == "approved" || key == "suppressed" || key == "closed" || key == "ignored" || key == "auto ignored"
  {
    OneOfNine(key, CLOSED);
  }

  /** One word, perhaps with a capital. */
  predicate IsWord(s: string) {
    s != [] && forall i :: 0 <= i < |s| ==> IsLower(s[i]) || (i == 0 && IsUpper(s[i]))
  }

  lemma {:induction false} CollapseBetween(a: string, c: char, b: string, which: char -> bool)
    requires (forall i :: 0 <= i < |a| ==> !which(a[i])) && (forall i :: 0 <= i < |b| ==> !which(b[i])) && which(c)
    ensures Collapse(a + [c] + b, which, false) == a + " " + b
  {
    var s := a + [c] + b;
    if a == [] {
      assert s == [c] + b && s[1..] == b;
      if b != [] {
        CollapseFixed(b[1..], which, false);
      }
    } else {
      assert s[1..] == a[1..] + [c] + b;
      CollapseBetween(a[1..], c, b, which);
    }
  }

  lemma {:induction false} CamelSplitBetween(a: string, b: string)
    requires IsWord(a) && IsLower(a[|a| - 1]) && IsWord(b) && IsUpper(b[0])
    ensures CamelSplit(a + b) == a + [' '] + b
    decreases a
  {
    var s := a + b;
    if |a| == 1 {
      assert s[1..] == b;
      CamelSplitFixed(b);
    } else {
      assert s[0] == a[0] && s[1] == a[1] && s[1..] == a[1..] + b;
      CamelSplitBetween(a[1..], b);
    }
  }

  lemma LowerWords(a: string, b: string)
    ensures Lower(a + " " + b) == Lower(a) + " " + Lower(b)
  {
    LowerConcat(a, " ");
    LowerConcat(a + " ", b);
    assert Lower(" ") == " ";
  }

  lemma WordFree(a: string)
    requires IsWord(a)
    ensures forall i :: 0 <= i < |a| ==> !IsJoiner(a[i]) && !IsSpace(a[i])
  {
  }

  /** Once two words are parted by a blank or a joiner, collapsing leaves one blank between them. */
  lemma WordsCollapse(a: string, c: char, b: string)
    requires IsWord(a) && IsWord(b) && (c == ' ' || c == '_' || c == '-')
    ensures Collapse(Collapse(a + [c] + b, IsJoiner, false), IsSpace, false) == a + " " + b
  {
    WordFree(a);
    WordFree(b);
    if IsJoiner(c) {
      CollapseBetween(a, c, b, IsJoiner);
    } else {
      CollapseFixed(a + [c] + b, IsJoiner, false);
      assert a + [c] + b == a + " " + b;
    }
    assert a + " " + b == a + [' '] + b;
    CollapseBetween(a, ' ', b, IsSpace);
  }

  lemma WordsTrimmed(a: string, m: string, b: string)
    requires IsWord(a) && IsWord(b)
    ensures Trim(a + m + b) == a + m + b
  {
    var s := a + m + b;
    assert s[0] == a[0] && s[|s| - 1] == b[|b| - 1];
    TrimFixed(s);
  }

  lemma RunTogetherTrimmed(a: string, b: string)
    requires IsWord(a) && IsWord(b)
    ensures Trim(a + b) == a + b
  {
    assert (a + b)[0] == a[0] && (a + b)[|a + b| - 1] == b[|b| - 1];
    TrimFixed(a + b);
  }

  lemma CamelFree(a: string, c: char, b: string)
    requires IsWord(a) && IsWord(b) && !IsLower(c) && !IsUpper(c)
    ensures CamelSplit(a + [c] + b) == a + [c] + b
  {
    CamelSplitFixed(a + [c] + b);
  }

  /** Two words read alike with a blank, an underscore or a hyphen between them. */
  lemma SeparatedWords(a: string, c: char, b: string)
    requires IsWord(a) && IsWord(b) && (c == ' ' || c == '_' || c == '-')
    ensures NormalizeStatus(a + [c] + b) == Lower(a) + " " + Lower(b)
  {
    WordsTrimmed(a, [c], b);
    CamelFree(a, c, b);
    WordsCollapse(a, c, b);
    LowerWords(a, b);
  }

  /** And so do two words run together with a capital. */
  lemma CamelWords(a: string, b: string)
    requires IsWord(a) && IsLower(a[|a| - 1]) && IsWord(b) && IsUpper(b[0])
    ensures NormalizeStatus(a + b) == Lower(a) + " " + Lower(b)
  {
    RunTogetherTrimmed(a, b);
    CamelSplitBetween(a, b);
    WordsCollapse(a, ' ', b);
    LowerWords(a, b);
  }

  lemma PairIs(x: string, y: string, u: string, v: string)
    requires ' ' !in x && ' ' !in u
    ensures x + " " + y == u + " " + v <==> x == u && y == v
  {
    if x + " " + y == u + " " + v {
      assert x + [' '] + y == u + [' '] + v;
      FirstSepUnique(' ', x, y, u, v);
    }
  }

  lemma OneWordKeys(x: string, y: string, key: string)
    requires ' ' !in key
    ensures x + " " + y != key
  {
    assert (x + " " + y)[|x|] == ' ';
  }

  lemma OneWordKeysApart(x: string, y: string)
    ensures var key := x + " " + y;
            && key != "resolved" && key != "duplicate" && key != "approved"
            && key != "suppressed" && key != "closed" && key != "ignored"
  {
    OneWordKeys(x, y, "resolved");
    OneWordKeys(x, y, "duplicate");
    OneWordKeys(x, y, "approved");
    OneWordKeys(x, y, "suppressed");
    OneWordKeys(x, y, "closed");
    OneWordKeys(x, y, "ignored");
  }

  lemma PairsSpelled()
    ensures "false" + " " + "positive" == "false positive" && "not" + " " + "applicable" == "not applicable"
    ensures "auto" + " " + "ignored" == "auto ignored" && "risk" + " " + "accepted" == RISK_ACCEPTED
  {
  }

  /** The two-word statuses that are closed, and the one that is an accepted risk. */
  lemma TwoWordReadings(x: string, y: string)
    requires ' ' !in x
    ensures IsClosedKey(x + " " + y)
            <==> (x == "false" && y == "positive") || (x == "not" && y == "applicable") || (x == "auto" && y == "ignored")
    ensures x + " " + y == RISK_ACCEPTED <==> x == "risk" && y == "accepted"
  {
    ClosedTexts(x + " " + y);
    PairsSpelled();
    PairIs(x, y, "false", "positive");
    PairIs(x, y, "not", "applicable");
    PairIs(x, y, "auto", "ignored");
    PairIs(x, y, "risk", "accepted");
    OneWordKeysApart(x, y);
  }

  lemma WordLower(a: string)
    requires IsWord(a)
    ensures ' ' !in Lower(a)
  {
    LowerKeepsChar(a, ' ');
  }

  lemma ReadPair(s: string, x: string, y: string)
    requires NormalizeStatus(s) == x + " " + y && ' ' !in x
    ensures IsClosedDisposition(s) <==> || (x == "false" && y == "positive")
                                        || (x == "not" && y == "applicable")
                                        || (x == "auto" && y == "ignored")
    ensures IsRiskAccepted(s) <==> x == "risk" && y == "accepted"
    ensures IsOpenRisk(s) <==> !IsClosedDisposition(s) && !IsRiskAccepted(s)
  {
    TwoWordReadings(x, y);
    assert |x + " " + y| > 0;
  }

  /** How a two-word status is read, whatever joins its words and however they are capitalised. */
  lemma TwoWordStatus(a: string, c: char, b: string)
    requires IsWord(a) && IsWord(b) && (c == ' ' || c == '_' || c == '-')
    ensures var x, y := Lower(a), Lower(b); var s := a + [c] + b;
            && (IsClosedDisposition(s) <==> || (x == "false" && y == "positive")
                                            || (x == "not" && y == "applicable")
                                            || (x == "auto" && y == "ignored"))
            && (IsRiskAccepted(s) <==> x == "risk" && y == "accepted")
            && (IsOpenRisk(s) <==> !IsClosedDisposition(s) && !IsRiskAccepted(s))
  {
    SeparatedWords(a, c, b);
    WordLower(a);
    ReadPair(a + [c] + b, Lower(a), Lower(b));
  }

  /** Run together with a capital, two words read as if parted. */
  lemma RunTogetherStatus(a: string, c: char, b: string)
    requires IsWord(a) && IsLower(a[|a| - 1]) && IsWord(b) && IsUpper(b[0]) && (c == ' ' || c == '_' || c == '-')
    ensures NormalizeStatus(a + b) == NormalizeStatus(a + [c] + b)
  {
    SeparatedWords(a, c, b);
    CamelWords(a, b);
  }

  /** How a one-word status is read, in any case. */
  lemma OneWordStatus(s: string)
    requires Spaced(s) && ' ' !in s
    ensures var x := Lower(s);
            && (IsClosedDisposition(s) <==> x == "resolved" || x == "duplicate" || x == "approved" || x == "suppressed"
                                            || x == "closed" || x == "ignored")
            && !IsRiskAccepted(s) && !IsBlank(s)
            && (IsOpenRisk(s) <==> !IsClosedDisposition(s))
  {
    SpacedStatus(s);
    LowerAt(s);
    LowerKeepsChar(s, ' ');
    ClosedTexts(Lower(s));
    BlankInside(Lower(s));
  }

  lemma BlankInside(x: string)
    requires ' ' !in x
    ensures x != "false positive" && x != "not applicable" && x != "auto ignored" && x != "risk accepted"
  {
    assert "false positive"[5] == ' ' && "not applicable"[3] == ' ';
    assert "auto ignored"[4] == ' ' && "risk accepted"[4] == ' ';
  }
}
