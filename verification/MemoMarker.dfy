/**
 The receipt marker in a memo: _append_receipt_id_marker and _strip_receipt_id_marker of
 services/ynab.py. The pattern that strips it is a run of white space, the marker opening,
 anything but a closing bracket, and a closing bracket.
 */
module MemoMarker {
  import opened Prelude

  const OPENING := "[receipt_id:"

  /** The white space of str.strip and of the pattern class \s. */
  predicate IsSpace(c: char) {
    var n := c as int;
    || 9 <= n <= 13 || 28 <= n <= 32 || 0x2000 <= n <= 0x200A
    || n in {0x85, 0xA0, 0x1680, 0x2028, 0x2029, 0x202F, 0x205F, 0x3000}
  }

  function TrimStart(s: string): string {
    if s != "" && IsSpace(s[0]) then TrimStart(s[1..]) else s
  }

  function TrimEnd(s: string): string {
    if s != "" && IsSpace(s[|s| - 1]) then TrimEnd(s[..|s| - 1]) else s
  }

  function Trim(s: string): string { TrimStart(TrimEnd(s)) }

  predicate OccursAt(s: string, m: string, i: nat) {
    i + |m| <= |s| && s[i..i + |m|] == m
  }

  predicate Contains(s: string, m: string) {
    exists i | 0 <= i <= |s| :: OccursAt(s, m, i)
  }

  function Marker(id: string): string { OPENING + id + "]" }

  /** _append_receipt_id_marker */
  function Append(memo: string, id: string): string {
    var text := Trim(memo);
    if Contains(text, Marker(id)) then text
    else if text != "" then text + " " + Marker(id)
    else Marker(id)
  }

  // ---------- the pattern ----------

  function SpaceRun(s: string): (n: nat)
    ensures n <= |s|
    ensures forall i | 0 <= i < n :: IsSpace(s[i])
    ensures n < |s| ==> !IsSpace(s[n])
  {
    if s != "" && IsSpace(s[0]) then 1 + SpaceRun(s[1..]) else 0
  }

  /** The position of the first closing bracket. */
  function Closing(s: string): (r: Option<nat>)
    ensures r.Some? ==> r.value < |s| && s[r.value] == ']' && ']' !in s[..r.value]
    ensures r.None? ==> ']' !in s
  {
    if s == "" then None
    else if s[0] == ']' then Some(0)
    else
      match Closing(s[1..])
      case None => None
      case Some(n) => Some(n + 1)
  }

  /** The length of the match at the start of s, if there is one. */
  function MatchAtStart(s: string): (r: Option<nat>)
    ensures r.Some? ==> 0 < r.value <= |s|
  {
    var run := SpaceRun(s);
    if !OccursAt(s, OPENING, run) then None
    else
      match Closing(s[run + |OPENING|..])
      case None => None
      case Some(n) => Some(run + |OPENING| + n + 1)
  }

  /** Substituting every match by nothing, from left to right. */
  function WithoutMarkers(s: string): string
    decreases |s|
  {
    if s == "" then ""
    else
      match MatchAtStart(s)
      case Some(n) => WithoutMarkers(s[n..])
      case None => [s[0]] + WithoutMarkers(s[1..])
  }

  /** _strip_receipt_id_marker */
  function Strip(memo: string): string { Trim(WithoutMarkers(Trim(memo))) }

  /** Tabs, line ends, the no-break and the ideographic space are stripped; letters and brackets are not. */
  lemma WhiteSpaceIs()
    ensures forall c | c in " \t\n\r\U{A0}\U{85}\U{2003}\U{2028}\U{3000}" :: IsSpace(c)
    ensures forall c | c in "[]:azAZ09-_." :: !IsSpace(c)
  {
  }

  // ---------- trimming ----------

  predicate Trimmed(s: string) {
    s != "" ==> !IsSpace(s[0]) && !IsSpace(s[|s| - 1])
  }

  lemma {:induction false} TrimEndTrims(s: string)
    ensures TrimEnd(s) <= s
    ensures var t := TrimEnd(s); t != "" ==> !IsSpace(t[|t| - 1])
  {
    if s != "" && IsSpace(s[|s| - 1]) {
      TrimEndTrims(s[..|s| - 1]);
    }
  }

  lemma {:induction false} TrimStartTrims(s: string)
    ensures exists k :: 0 <= k <= |s| && TrimStart(s) == s[k..]
    ensures var t := TrimStart(s); t != "" ==> !IsSpace(t[0])
  {
    if s != "" && IsSpace(s[0]) {
      TrimStartTrims(s[1..]);
      var k :| 0 <= k <= |s| - 1 && TrimStart(s[1..]) == s[1..][k..];
      assert TrimStart(s) == s[k + 1..];
    } else {
      assert TrimStart(s) == s[0..];
    }
  }

  lemma TrimTrims(s: string)
    ensures Trimmed(Trim(s))
    ensures exists i, j :: 0 <= i <= j <= |s| && Trim(s) == s[i..j]
  {
    var e := TrimEnd(s);
    TrimEndTrims(s);
    TrimStartTrims(e);
    var k :| 0 <= k <= |e| && TrimStart(e) == e[k..];
    assert Trim(s) == s[k..|e|];
  }

  lemma TrimmedIsFixed(s: string)
    requires Trimmed(s)
    ensures Trim(s) == s
  {
  }

  // ---------- append ----------

  predicate NoOpening(s: string) {
    forall i | 0 <= i <= |s| :: !OccursAt(s, OPENING, i)
  }

  lemma AppendedIsTrimmed(memo: string, id: string)
    ensures Trimmed(Append(memo, id)) && Append(memo, id) != ""
    ensures Contains(Append(memo, id), Marker(id))
  {
    var text, marker := Trim(memo), Marker(id);
    TrimTrims(memo);
    assert marker[|marker| - 1] == ']';
    if !Contains(text, marker) {
      var s := Append(memo, id);
      var at := |s| - |marker|;
      assert OccursAt(s, marker, at);
      assert text != "" ==> s[0] == text[0] && s[|s| - 1] == ']';
    }
  }

  /** Appending twice is appending once, for every memo and id. */
  lemma AppendTwice(memo: string, id: string)
    ensures Append(Append(memo, id), id) == Append(memo, id)
  {
    AppendedIsTrimmed(memo, id);
    TrimmedIsFixed(Append(memo, id));
  }

  lemma Occurrence(s: string, m: string, i: nat, k: nat)
    requires OccursAt(s, m, i) && k < |m|
    ensures s[i + k] == m[k]
  {
    assert s[i..i + |m|][k] == s[i + k];
  }

  /** An opening in text + tail, where tail starts with a space, is not one that starts in text. */
  lemma NoOpeningAcross(text: string, tail: string, i: nat)
    requires NoOpening(text) && tail != "" && tail[0] == ' ' && i < |text|
    ensures !OccursAt(text + tail, OPENING, i)
  {
    var s := text + tail;
    assert s[|text|] == ' ';
    assert !OccursAt(text, OPENING, i);
    if i + |OPENING| <= |text| {
      assert s[i..i + |OPENING|] == text[i..i + |OPENING|];
    } else if OccursAt(s, OPENING, i) {
      Occurrence(s, OPENING, i, |text| - i);
    }
  }

  lemma NoOpeningInSuffix(text: string)
    requires NoOpening(text) && text != ""
    ensures NoOpening(text[1..])
  {
    forall i | 0 <= i <= |text[1..]| ensures !OccursAt(text[1..], OPENING, i) {
      if OccursAt(text[1..], OPENING, i) {
        assert text[1..][i..i + |OPENING|] == text[i + 1..i + 1 + |OPENING|];
        assert OccursAt(text, OPENING, i + 1);
      }
    }
  }

  /** The scan keeps a text without openings and drops the whole match that follows it. */
  lemma {:induction false} ScanKeepsText(text: string, tail: string)
    requires NoOpening(text)
    requires text != "" ==> !IsSpace(text[|text| - 1]) && tail != "" && tail[0] == ' '
    requires MatchAtStart(tail) == Some(|tail|)
    ensures WithoutMarkers(text + tail) == text
  {
    hide MatchAtStart, NoOpening, IsSpace, WithoutMarkers, OccursAt;
    if text == "" {
      assert "" + tail == tail;
      ScanMatch(tail);
    } else {
      NoMatchHere(text, tail);
      NoOpeningInSuffix(text);
      var s := text + tail;
      assert s[1..] == text[1..] + tail;
      ScanKeepsText(text[1..], tail);
      ScanOne(s);
      assert text == [text[0]] + text[1..];
    }
  }

  lemma ScanOne(s: string)
    requires s != "" && MatchAtStart(s) == None
    ensures WithoutMarkers(s) == [s[0]] + WithoutMarkers(s[1..])
  {
    hide MatchAtStart;
  }

  lemma ScanMatch(s: string)
    requires MatchAtStart(s) == Some(|s|)
    ensures WithoutMarkers(s) == ""
  {
    hide MatchAtStart;
    assert s[|s|..] == "";
  }

  lemma NoMatchHere(text: string, tail: string)
    requires NoOpening(text) && text != "" && !IsSpace(text[|text| - 1]) && tail != "" && tail[0] == ' '
    ensures MatchAtStart(text + tail) == None
  {
    hide NoOpening, IsSpace, OccursAt;
    var s := text + tail;
    assert s[|text| - 1] == text[|text| - 1];
    assert SpaceRun(s) < |text|;
    NoOpeningAcross(text, tail, SpaceRun(s));
  }

  lemma SpaceRunIs(s: string, run: nat)
    requires run < |s| && !IsSpace(s[run]) && forall i | 0 <= i < run :: IsSpace(s[i])
    ensures SpaceRun(s) == run
  {
    hide IsSpace;
  }

  lemma MarkerOccurs(prefix: string, id: string)
    ensures var m := prefix + Marker(id);
            && OccursAt(m, OPENING, |prefix|)
            && m[|prefix| + |OPENING|..] == id + "]"
            && m[|prefix|] == '['
  {
    var m := prefix + Marker(id);
    assert m == prefix + OPENING + (id + "]");
  }

  lemma MatchParts(m: string, run: nat, close: nat)
    requires SpaceRun(m) == run && OccursAt(m, OPENING, run) && Closing(m[run + |OPENING|..]) == Some(close)
    ensures MatchAtStart(m) == Some(run + |OPENING| + close + 1)
  {
    hide SpaceRun, OccursAt, Closing;
  }

  /** A marker matches to its end, with or without the space before it. */
  lemma MarkerMatches(id: string, spaced: bool)
    requires ']' !in id
    ensures var m := if spaced then " " + Marker(id) else Marker(id);
            MatchAtStart(m) == Some(|m|)
  {
    var prefix := if spaced then " " else "";
    var m := prefix + Marker(id);
    assert |Marker(id)| == |OPENING| + |id| + 1;
    assert IsSpace(' ') && !IsSpace('[');
    hide IsSpace, OccursAt, MatchAtStart, Marker;
    MarkerOccurs(prefix, id);
    SpaceRunIs(m, |prefix|);
    ClosingAfter(id);
    MatchParts(m, |prefix|, |id|);
    assert !spaced ==> m == Marker(id);
  }

  lemma {:induction false} ClosingAfter(id: string)
    requires ']' !in id
    ensures Closing(id + "]") == Some(|id|)
  {
    if id != "" {
      assert (id + "]")[1..] == id[1..] + "]";
      ClosingAfter(id[1..]);
    }
  }

  lemma OccursPrefix(s: string, m: string, p: string, i: nat)
    requires OccursAt(s, m, i) && p <= m
    ensures OccursAt(s, p, i)
  {
    assert s[i..i + |p|] == s[i..i + |m|][..|p|];
  }

  lemma NoMarkerWithoutOpening(text: string, id: string)
    requires NoOpening(text)
    ensures !Contains(text, Marker(id))
  {
    forall k | 0 <= k <= |text| ensures !OccursAt(text, Marker(id), k) {
      if OccursAt(text, Marker(id), k) {
        OccursPrefix(text, Marker(id), OPENING, k);
      }
    }
  }

  /** Stripping undoes appending, up to the white space around the memo. */
  lemma StripUndoesAppend(memo: string, id: string)
    requires NoOpening(Trim(memo)) && ']' !in id
    ensures Strip(Append(memo, id)) == Trim(memo)
  {
    hide NoOpening, Contains, MatchAtStart, WithoutMarkers, IsSpace, TrimStart, TrimEnd;
    var text, marker := Trim(memo), Marker(id);
    TrimTrims(memo);
    NoMarkerWithoutOpening(text, id);
    AppendedIsTrimmed(memo, id);
    TrimmedIsFixed(Append(memo, id));
    TrimmedIsFixed(text);
    if text == "" {
      MarkerMatches(id, false);
      assert marker == "" + marker;
      ScanKeepsText("", marker);
    } else {
      MarkerMatches(id, true);
      assert Append(memo, id) == text + (" " + marker);
      ScanKeepsText(text, " " + marker);
    }
  }

  /** On a memo without openings the appended marker names one receipt: no other marker is found in it. */
  lemma MarkerNamesOneReceipt(memo: string, id: string, other: string)
    requires NoOpening(Trim(memo))
    requires '[' !in id && ']' !in id && ']' !in other
    ensures Contains(Append(memo, id), Marker(other)) <==> id == other
  {
    AppendedIsTrimmed(memo, id);
    if Contains(Append(memo, id), Marker(other)) {
      var s, m := Append(memo, id), Marker(other);
      var i :| 0 <= i <= |s| && OccursAt(s, m, i);
      NoMarkerWithoutOpening(Trim(memo), id);
      OccursPrefix(s, m, OPENING, i);
      OpeningIsAtMarker(Trim(memo), id, i);
      SameMarkers(id, other, s, i);
    }
  }

  /** The only opening of a memo with its marker appended is the marker's own. */
  lemma OpeningIsAtMarker(text: string, id: string, i: nat)
    requires NoOpening(text) && '[' !in id
    requires var s := if text != "" then text + " " + Marker(id) else Marker(id);
             OccursAt(s, OPENING, i)
    ensures var s := if text != "" then text + " " + Marker(id) else Marker(id);
            i == |s| - |Marker(id)|
  {
    hide NoOpening, OccursAt;
    OneBracket(id);
    hide Marker;
    var s := if text != "" then text + " " + Marker(id) else Marker(id);
    var start := |s| - |Marker(id)|;
    assert forall k | |text| <= k < start :: s[k] == ' ';
    assert forall k | start < k < |s| :: s[k] == Marker(id)[k - start];
    assert text != "" ==> s == text + (" " + Marker(id));
    OpensWithBracket(s, i);
    if i < |text| {
      NoOpeningAcross(text, " " + Marker(id), i);
    }
  }

  lemma OneBracket(id: string)
    requires '[' !in id
    ensures forall k | 0 < k < |Marker(id)| :: Marker(id)[k] != '['
  {
  }

  lemma OpensWithBracket(s: string, i: nat)
    requires OccursAt(s, OPENING, i)
    ensures i < |s| && s[i] == '['
  {
    Occurrence(s, OPENING, i, 0);
  }

  lemma SameMarkers(id: string, other: string, s: string, i: nat)
    requires ']' !in id && ']' !in other
    requires i <= |s| && s[i..] == Marker(id) && OccursAt(s, Marker(other), i)
    ensures id == other
  {
    var rest := s[i..][|OPENING|..];
    assert rest == id + "]";
    assert rest[..|other| + 1] == other + "]" by {
      assert s[i..i + |Marker(other)|] == Marker(other);
      assert rest[..|other| + 1] == Marker(other)[|OPENING|..];
    }
    assert rest[|other|] == (other + "]")[|other|] == ']';
    assert forall k | 0 <= k < |id| :: rest[k] == id[k];
    assert |other| == |id|;
    assert rest[..|id|] == id && (other + "]")[..|other|] == other;
  }
}
