/** `StringExtensions.Center`: a text padded on both sides to a given width.
    `new string(c, n)` throws for a negative `n`; that outcome is `None`. */
module StringExtensions {
  import opened Wrappers

  /** `new string(paddingChar, count)`. */
  function Pad(count: nat, paddingChar: char): (s: string)
    ensures |s| == count && forall i :: 0 <= i < count ==> s[i] == paddingChar
  {
    seq(count, _ => paddingChar)
  }

  /** `Center(text, totalWidth, paddingChar)`: an empty text gives the padding
      alone; a text at least as wide as the field comes back as it is;
      otherwise the left padding is half the spare room, rounded down, and the
      right padding takes the rest.  It fails only for an empty text and a
      negative width. */
  function Center(text: string, totalWidth: int, paddingChar: char := ' '): (r: Option<string>)
    ensures r.None? <==> |text| == 0 && totalWidth < 0
  {
    if |text| == 0 then
      if totalWidth < 0 then None else Some(Pad(totalWidth, paddingChar))
    else if |text| >= totalWidth then Some(text)
    else
      var leftPadding := (totalWidth - |text|) / 2;
      var rightPadding := totalWidth - |text| - leftPadding;
      Some(Pad(leftPadding, paddingChar) + text + Pad(rightPadding, paddingChar))
  }

  /** An empty text becomes `totalWidth` padding characters. */
  lemma CenterEmpty(totalWidth: nat, paddingChar: char)
    ensures var r := Center("", totalWidth, paddingChar);
      r.Some? && |r.value| == totalWidth
      && forall i :: 0 <= i < totalWidth ==> r.value[i] == paddingChar
  {
  }

  /** A text that does not fit is returned unchanged. */
  lemma CenterTooNarrow(text: string, totalWidth: int, paddingChar: char)
    requires |text| > 0 && |text| >= totalWidth
    ensures Center(text, totalWidth, paddingChar) == Some(text)
  {
  }

  /** `s` is `text` after `left` padding characters and before as many as
      `left` or one more. */
  predicate CenteredAt(s: string, text: string, left: nat, paddingChar: char)
  {
    var right := |s| - left - |text|;
    && left + |text| <= |s|
    && (right == left || right == left + 1)
    && s[left..left + |text|] == text
    && (forall i :: 0 <= i < left ==> s[i] == paddingChar)
    && (forall i :: left + |text| <= i < |s| ==> s[i] == paddingChar)
  }

  /** A text that fits fills the field exactly, centred, the odd padding
      character on the right. */
  lemma CenterBalanced(text: string, totalWidth: int, paddingChar: char)
    requires 0 < |text| < totalWidth
    ensures var r := Center(text, totalWidth, paddingChar);
      && r.Some? && |r.value| == totalWidth
      && exists left: nat :: CenteredAt(r.value, text, left, paddingChar)
  {
    var left := (totalWidth - |text|) / 2;
    var right := totalWidth - |text| - left;
    var s := Pad(left, paddingChar) + text + Pad(right, paddingChar);
    assert Center(text, totalWidth, paddingChar) == Some(s);
    assert s[left..left + |text|] == text;
    forall i | left + |text| <= i < totalWidth
      ensures s[i] == paddingChar
    {
      assert s[i] == Pad(right, paddingChar)[i - left - |text|];
    }
    assert CenteredAt(s, text, left, paddingChar);
  }
}
