/**
 * The plain-text key list put into the buyer's e-mail after verification:
 * one line `- <key>` per assigned key, in allocation order, joined by newlines.
 */
module Notify {

  /** `assigned.map(k => `- ${k}`).join("\n")` */
  function KeyListText(keys: seq<string>): (r: string)
    ensures r == "" <==> keys == []
    ensures keys != [] ==> |r| >= 2 && r[..2] == "- "
  {
    if keys == [] then ""
    else if |keys| == 1 then "- " + keys[0]
    else "- " + keys[0] + "\n" + KeyListText(keys[1..])
  }

  /** `s.split("\n")`: the pieces between newlines; always at least one piece. */
  function SplitLines(s: string): (r: seq<string>)
    ensures |r| >= 1
    ensures '\n' !in s ==> r == [s]
  {
    if s == [] then [""]
    else if s[0] == '\n' then [""] + SplitLines(s[1..])
    else
      var rest := SplitLines(s[1..]);
      assert [s[0]] + s[1..] == s;
      [[s[0]] + rest[0]] + rest[1..]
  }

  /** A line without a newline, then a newline, then more text, splits at that newline. */
  lemma {:induction false} SplitAfterLine(line: string, more: string)
    requires '\n' !in line
    ensures SplitLines(line + "\n" + more) == [line] + SplitLines(more)
  {
    if line == [] {
      assert line + "\n" + more == ['\n'] + more;
    } else {
      var s := line + "\n" + more;
      SplitAfterLine(line[1..], more);
      assert s[0] == line[0] && s[0] in line;
      assert s[1..] == line[1..] + "\n" + more;
      assert [line[0]] + line[1..] == line;
    }
  }

  /**
   * When no key contains a newline, splitting the text back into lines gives
   * one line `- <key>` per assigned key, in allocation order: the buyer reads
   * exactly the keys that were allocated.
   */
  lemma {:induction false} KeyListLines(keys: seq<string>)
    requires |keys| >= 1
    requires forall k :: k in keys ==> '\n' !in k
    ensures |SplitLines(KeyListText(keys))| == |keys|
    ensures forall i :: 0 <= i < |keys| ==> SplitLines(KeyListText(keys))[i] == "- " + keys[i]
  {
    var first := "- " + keys[0];
    assert '\n' !in first by {
      assert keys[0] in keys;
      assert forall c :: c in first ==> c in "- " || c in keys[0];
    }
    if |keys| > 1 {
      KeyListLines(keys[1..]);
      SplitAfterLine(first, KeyListText(keys[1..]));
      assert KeyListText(keys) == first + "\n" + KeyListText(keys[1..]);
    }
  }
}
