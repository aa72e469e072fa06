/** Slicing the reviewed answer for streaming: words are never split. */
module StreamSlices {
  import opened Common
  import opened Text

  const SLICE_CHARS := 48

  function Join(slices: seq<string>): string {
    if slices == [] then "" else Join(slices[..|slices| - 1]) + slices[|slices| - 1]
  }

  lemma JoinNext(slices: seq<string>, slice: string)
    ensures Join(slices + [slice]) == Join(slices) + slice
  {
    assert (slices + [slice])[..|slices|] == slices;
  }

  ghost predicate AllSpaces(s: string) { forall i | 0 <= i < |s| :: IsSpace(s[i]) }

  ghost predicate NoSpaces(s: string) { forall i | 0 <= i < |s| :: !IsSpace(s[i]) }

  /** At most one word, with the spaces around it. */
  ghost predicate OneWord(s: string) {
    exists i, j :: 0 <= i <= j <= |s| && AllSpaces(s[..i]) && NoSpaces(s[i..j]) && AllSpaces(s[j..])
  }

  /** Long enough to send, and not longer than its last word makes it. */
  ghost predicate RightSize(s: string) {
    |s| >= 48 && exists c :: 0 <= c < 48 && OneWord(s[c..])
  }

  ghost predicate EndsOnSpace(s: string) { s != "" && IsSpace(s[|s| - 1]) }

  method Skip(text: string, start: nat, spaces: bool) returns (end: nat)
    requires start <= |text|
    ensures start <= end <= |text|
    ensures forall i | start <= i < end :: IsSpace(text[i]) == spaces
    ensures end < |text| ==> IsSpace(text[end]) != spaces
  {
    end := start;
    while end < |text| && IsSpace(text[end]) == spaces
      invariant start <= end <= |text| && forall i | start <= i < end :: IsSpace(text[i]) == spaces
    {
      end := end + 1;
    }
  }

  /** One match of the token pattern: spaces, a word and its trailing spaces, or spaces up to the end. */
  method Token(text: string, start: nat) returns (end: nat)
    requires start < |text|
    ensures start < end <= |text| && OneWord(text[start..end])
    ensures end < |text| ==> EndsOnSpace(text[start..end]) && !IsSpace(text[end])
  {
    var word := Skip(text, start, true);
    var spaces := Skip(text, word, false);
    end := Skip(text, spaces, true);
    var token := text[start..end];
    var i, j := word - start, spaces - start;
    assert AllSpaces(token[..i]);
    assert NoSpaces(token[i..j]) by {
      forall k | 0 <= k < j - i ensures !IsSpace(token[i..j][k]) {
        assert token[i..j][k] == text[word + k];
      }
    }
    assert AllSpaces(token[j..]) by {
      forall k | 0 <= k < |token| - j ensures IsSpace(token[j..][k]) {
        assert token[j..][k] == text[spaces + k];
      }
    }
    if end < |text| {
      assert token[|token| - 1] == text[end - 1];
    }
  }

  /** Every slice is of the right size and ends on whitespace. */
  ghost predicate WellCut(slices: seq<string>) {
    forall i | 0 <= i < |slices| :: RightSize(slices[i]) && EndsOnSpace(slices[i])
  }

  /** Text sent so far; at the end of the text the last slice need not end on whitespace. */
  ghost predicate Cut(slices: seq<string>, current: string, atEnd: bool) {
    if atEnd && current == "" && slices != [] then
      WellCut(slices[..|slices| - 1]) && RightSize(slices[|slices| - 1])
    else WellCut(slices)
  }

  lemma CutNext(slices: seq<string>, current: string, token: string, atEnd: bool)
    requires WellCut(slices) && |current| < SLICE_CHARS && OneWord(token) && (!atEnd ==> EndsOnSpace(token))
    ensures var grown := current + token;
      if |grown| >= SLICE_CHARS then Cut(slices + [grown], "", atEnd) else token != "" ==> Cut(slices, grown, atEnd)
  {
    var grown := current + token;
    if |grown| >= SLICE_CHARS {
      assert grown[|current|..] == token;
      assert RightSize(grown);
      assert (slices + [grown])[..|slices|] == slices;
    }
  }

  /** _stream_slices(): the slices rejoin to exactly the text and break only after whitespace. */
  method Slices(text: string) returns (slices: seq<string>)
    ensures Join(slices) == text
    ensures slices != [] ==> WellCut(slices[..|slices| - 1])
    ensures slices != [] ==> 0 < |slices[|slices| - 1]| < SLICE_CHARS || RightSize(slices[|slices| - 1])
  {
    slices := [];
    var current, position := "", 0;
    ghost var sent := "";
    while position < |text|
      invariant position <= |text| && sent + current == text[..position] && sent == Join(slices)
      invariant |current| < SLICE_CHARS && Cut(slices, current, position == |text|)
      decreases |text| - position
    {
      var end := Token(text, position);
      var token := text[position..end];
      CutNext(slices, current, token, end == |text|);
      Regroup(sent, current, token);
      TakeMore(text, position, end);
      current, position := current + token, end;
      if |current| >= SLICE_CHARS {
        JoinNext(slices, current);
        slices, sent, current := slices + [current], sent + current, "";
      }
    }
    assert text[..position] == text;
    if current != "" {
      JoinNext(slices, current);
      assert (slices + [current])[..|slices|] == slices;
      slices := slices + [current];
    }
  }

  lemma TakeMore(text: string, start: nat, end: nat)
    requires start <= end <= |text|
    ensures text[..end] == text[..start] + text[start..end]
  {}
}
