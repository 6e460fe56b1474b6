/** `formatMessage` (agent.js:419-422): `text.replace(/\n/g, '<br>')`. */
module MessageFormatter {

  const LineBreak: string := "<br>"

  /** Number of newline characters in `s`. */
  function NewlineCount(s: string): nat {
    if s == [] then 0 else (if s[0] == '\n' then 1 else 0) + NewlineCount(s[1..])
  }

  /**
   * Every newline of `text` replaced by `<br>`; nothing else is touched
   * (no markdown, list or link handling).
   */
  function FormatMessage(text: string): (r: string)
    ensures '\n' !in r
    ensures |r| == |text| + 3 * NewlineCount(text)
    ensures NewlineCount(text) == 0 ==> r == text
  {
    if text == [] then []
    else if text[0] == '\n' then LineBreak + FormatMessage(text[1..])
    else [text[0]] + FormatMessage(text[1..])
  }

  /** Formatting works piece by piece: it commutes with concatenation. */
  lemma {:induction false} FormatAppend(a: string, b: string)
    ensures FormatMessage(a + b) == FormatMessage(a) + FormatMessage(b)
  {
    if a == [] {
      assert a + b == b;
    } else {
      assert (a + b)[0] == a[0];
      assert (a + b)[1..] == a[1..] + b;
      FormatAppend(a[1..], b);
    }
  }

  /**
   * Position by position: character `i` of the input lands at `i` plus three
   * per earlier newline; an ordinary character is copied there and a newline
   * becomes the four characters `<br>`.
   */
  lemma FormatAt(text: string, i: nat)
    requires i < |text|
    ensures var p := i + 3 * NewlineCount(text[..i]);
      if text[i] == '\n' then
        p + 4 <= |FormatMessage(text)| && FormatMessage(text)[p..p + 4] == LineBreak
      else
        p < |FormatMessage(text)| && FormatMessage(text)[p] == text[i]
  {
    var pre, mid, post := text[..i], [text[i]], text[i + 1..];
    assert text == pre + mid + post;
    FormatAppend(pre + mid, post);
    FormatAppend(pre, mid);
    var p := i + 3 * NewlineCount(pre);
    assert |FormatMessage(pre)| == p;
    if text[i] == '\n' {
      assert FormatMessage(mid) == LineBreak + FormatMessage([]);
    } else {
      assert FormatMessage(mid) == [text[i]] + FormatMessage([]);
    }
  }

  /** Formatting is idempotent: its output has no newline left to replace. */
  lemma FormatIdempotent(text: string)
    ensures FormatMessage(FormatMessage(text)) == FormatMessage(text)
  {
    var r := FormatMessage(text);
    NoNewlineCountsZero(r);
  }

  lemma {:induction false} NoNewlineCountsZero(s: string)
    requires '\n' !in s
    ensures NewlineCount(s) == 0
  {
    if s != [] {
      assert s[0] in s;
      assert forall c :: c in s[1..] ==> c in s;
      NoNewlineCountsZero(s[1..]);
    }
  }
}
