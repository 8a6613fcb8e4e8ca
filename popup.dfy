/** The popup text the legacy scripts build from a decoded JSON object: each entry
    becomes one line `<b>Key:</b> value`, its key reformatted for display, and the lines
    are joined with `<br>`. The same formatter serves the legacy pixel popup and the
    similarity-marker popups. */
module Popup {
  import opened Text
  import opened Json

  /** `s.replace(c, d)` with a one-character string pattern: only the first occurrence
      is replaced. */
  function ReplaceFirst(s: string, c: char, d: char): (r: string)
    ensures |r| == |s|
    ensures c !in s ==> r == s
    ensures c in s ==> r[IndexOf(s, c)] == d
    ensures forall j :: 0 <= j < |s| && j != IndexOf(s, c) ==> r[j] == s[j]
  {
    var i := IndexOf(s, c);
    if i == -1 then s else s[..i] + [d] + s[i + 1..]
  }

  /** Position i of s is matched by `\b\w`: a word character with no word character right
      before it. */
  predicate WordStart(s: string, i: int)
    requires 0 <= i < |s|
  {
    IsWordChar(s[i]) && (i == 0 || !IsWordChar(s[i - 1]))
  }

  /** `s.replace(/\b\w/g, l => l.toUpperCase())`, scanning left to right; `afterWord`
      says whether the character before `s` is a word character. */
  function UpperWordStarts(s: string, afterWord: bool): (r: string)
    ensures |r| == |s|
  {
    if s == [] then []
    else
      [if IsWordChar(s[0]) && !afterWord then UpperAscii(s[0]) else s[0]]
      + UpperWordStarts(s[1..], IsWordChar(s[0]))
  }

  /** Each character of the scan is raised exactly when it is a word start. */
  lemma {:induction false} UpperWordStartsAt(s: string, j: int)
    requires 0 <= j < |s|
    ensures UpperWordStarts(s, false)[j] == if WordStart(s, j) then UpperAscii(s[j]) else s[j]
  {
    UpperFromAt(s, false, j);
  }

  lemma {:induction false} UpperFromAt(s: string, afterWord: bool, j: int)
    requires 0 <= j < |s|
    ensures UpperWordStarts(s, afterWord)[j]
            == if IsWordChar(s[j]) && !(if j == 0 then afterWord else IsWordChar(s[j - 1]))
               then UpperAscii(s[j]) else s[j]
    decreases j
  {
    if j > 0 {
      UpperFromAt(s[1..], IsWordChar(s[0]), j - 1);
    }
  }

  /** The key formatter: the first underscore becomes a space, then the first
      character of every word is raised to upper case. */
  function FormatKey(key: string): string {
    UpperWordStarts(ReplaceFirst(key, '_', ' '), false)
  }

  lemma UpperKeepsWordChars(c: char)
    ensures IsWordChar(UpperAscii(c)) == IsWordChar(c)
  {
  }

  /** What the formatter does to a key: the length is kept; the first underscore is a
      space and every later one is still an underscore; no word of the result starts
      with a lower-case letter; and a character that does not start a word is left
      as it is, so only the first letters of words change case. */
  lemma FormatKeyFacts(key: string)
    ensures |FormatKey(key)| == |key|
    ensures '_' in key ==> FormatKey(key)[IndexOf(key, '_')] == ' '
    ensures forall j :: 0 <= j < |key| && key[j] == '_' && j != IndexOf(key, '_')
                        ==> FormatKey(key)[j] == '_'
    ensures forall j :: 0 <= j < |key| && WordStart(FormatKey(key), j)
                        ==> !('a' <= FormatKey(key)[j] <= 'z')
    ensures forall j :: 0 <= j < |key| && !WordStart(ReplaceFirst(key, '_', ' '), j)
                        ==> FormatKey(key)[j] == ReplaceFirst(key, '_', ' ')[j]
  {
    var t := ReplaceFirst(key, '_', ' ');
    var r := FormatKey(key);
    forall j | 0 <= j < |key|
      ensures r[j] == if WordStart(t, j) then UpperAscii(t[j]) else t[j]
    {
      UpperWordStartsAt(t, j);
    }
    forall j | 0 <= j < |key| && WordStart(r, j)
      ensures !('a' <= r[j] <= 'z')
    {
      UpperKeepsWordChars(t[j]);
      if j > 0 {
        UpperKeepsWordChars(t[j - 1]);
      }
    }
  }

  /** Only the first underscore becomes a space; `\b\w` then raises `v` and `x`, but not
      the `i` after the remaining underscore, which is a word character. */
  lemma FormatKeyExample(key: string)
    requires key == "verse_x_info"
    ensures FormatKey(key) == "Verse X_info"
  {
    ReplaceExample(key);
    ScanExample("verse x_info");
  }

  lemma ReplaceExample(s: string)
    requires s == "verse_x_info"
    ensures ReplaceFirst(s, '_', ' ') == "verse x_info"
  {
    assert s == "verse" + ['_'] + "x_info";
    ReplaceFirstAfter("verse", "x_info", '_', ' ');
    assert "verse" + [' '] + "x_info" == "verse x_info";
  }

  /** The first `c` is the one after a prefix without `c`. */
  lemma ReplaceFirstAfter(a: string, b: string, c: char, d: char)
    requires c !in a
    ensures ReplaceFirst(a + [c] + b, c, d) == a + [d] + b
  {
    var s := a + [c] + b;
    IndexOfAfter(a, b, c);
    assert s[..|a|] == a && s[|a| + 1..] == b;
  }

  lemma ScanExample(t: string)
    requires t == "verse x_info"
    ensures UpperWordStarts(t, false) == "Verse X_info"
  {
    var r := UpperWordStarts(t, false);
    forall j | 0 <= j < |t|
      ensures r[j] == "Verse X_info"[j]
    {
      UpperWordStartsAt(t, j);
    }
  }

  /** A key that is one word with no underscore only has its first letter raised:
      `Coordinates` stays, `error` becomes `Error`, `distance` becomes `Distance`. */
  lemma FormatKeyOneWord(key: string)
    requires |key| > 0 && '_' !in key
    requires forall i :: 0 <= i < |key| ==> IsWordChar(key[i])
    ensures FormatKey(key) == [UpperAscii(key[0])] + key[1..]
  {
    var r := FormatKey(key);
    forall j | 0 <= j < |key|
      ensures r[j] == ([UpperAscii(key[0])] + key[1..])[j]
    {
      UpperWordStartsAt(key, j);
    }
  }

  /** The text `<b>shown:</b> value` of a popup line. */
  function LineText(shown: string, value: string): string {
    "<b>" + shown + ":</b> " + value
  }

  /** The line of one entry. */
  function Line(e: Entry): string {
    LineText(FormatKey(e.0), Render(e.1))
  }

  /** The lines of the entries, one each, in entry order. */
  function Lines(entries: seq<Entry>): (lines: seq<string>)
    ensures |lines| == |entries|
    ensures entries != [] ==> lines[0] == Line(entries[0])
  {
    if entries == [] then [] else [Line(entries[0])] + Lines(entries[1..])
  }

  /** Line i of the popup is the line of entry i. */
  lemma {:induction false} LinesAt(entries: seq<Entry>, i: nat)
    requires i < |entries|
    ensures Lines(entries)[i] == Line(entries[i])
    decreases i
  {
    if i > 0 {
      LinesAt(entries[1..], i - 1);
    }
  }

  /** The popup as the scripts build it: the loop over `Object.entries` pushes one line
      per entry into `contentLines`, which is then joined with `<br>`. */
  method BuildPopup(entries: seq<Entry>) returns (content: string)
    ensures content == Join(Lines(entries), "<br>")
  {
    var contentLines: seq<string> := [];
    var i := 0;
    while i < |entries|
      invariant 0 <= i <= |entries|
      invariant contentLines == Lines(entries[..i])
    {
      assert entries[..i + 1] == entries[..i] + [entries[i]];
      LinesSnoc(entries[..i], entries[i]);
      contentLines := contentLines + [Line(entries[i])];
      i := i + 1;
    }
    assert entries[..i] == entries;
    content := Join(contentLines, "<br>");
  }

  lemma {:induction false} LinesSnoc(a: seq<Entry>, e: Entry)
    ensures Lines(a + [e]) == Lines(a) + [Line(e)]
    decreases |a|
  {
    if a != [] {
      assert (a + [e])[1..] == a[1..] + [e];
      LinesSnoc(a[1..], e);
    }
  }

  /** The popup text of an object: its first entry's line comes first, and each line
      is followed by `<br>` and the popup of the remaining entries. */
  lemma PopupOrder(entries: seq<Entry>)
    ensures entries == [] ==> Join(Lines(entries), "<br>") == ""
    ensures |entries| == 1 ==> Join(Lines(entries), "<br>") == Line(entries[0])
    ensures |entries| > 1 ==> Join(Lines(entries), "<br>")
                              == Line(entries[0]) + "<br>" + Join(Lines(entries[1..]), "<br>")
  {
    if |entries| > 1 {
      assert Lines(entries)[1..] == Lines(entries[1..]);
    }
  }
}
