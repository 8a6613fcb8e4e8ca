/** The changelog popup: on page load the release list is fetched; when the newest
    release differs from the version stored in local storage under
    `lastSeenChangelogVersion` (an absent entry counting as different), the popup shows
    the markdown of the five newest releases and a footer, and the stored version
    becomes the newest. The markdown renderer and the sanitiser are not part of this
    model: the popup holds the markdown text it is given. */
module Changelog {
  import opened Wrappers
  import opened Text

  /** One entry of the release list, newest first. */
  datatype Release = Release(version: string, notes: string)

  /** What `await fetch(...)` and `await response.json()` give: a failure (thrown and
      caught), or the decoded list. */
  datatype Fetched = FetchFailed | Releases(data: seq<Release>)

  /** How many releases the popup lists at most. */
  const Recent := 5

  const Footer := "For a full list of changes, please visit the [GitHub releases page](https://github.com/TheodorCrosswell/KJV_Search_Tools/releases).\n"

  /** The markdown block of one release. */
  function Block(r: Release): string {
    "## " + r.version + "\n\n" + r.notes + "\n\n---\n\n"
  }

  /** The blocks of the releases, concatenated in list order. */
  function Blocks(rs: seq<Release>): (t: string)
    ensures rs != [] ==> Block(rs[0]) <= t
  {
    if rs == [] then "" else Block(rs[0]) + Blocks(rs[1..])
  }

  lemma {:induction false} BlocksAppend(a: seq<Release>, b: seq<Release>)
    ensures Blocks(a + b) == Blocks(a) + Blocks(b)
  {
    if a == [] {
      assert a + b == b;
    } else {
      assert (a + b)[1..] == a[1..] + b;
      BlocksAppend(a[1..], b);
    }
  }

  /** The popup's markdown: the blocks of the first `min(5, n)` releases, then the
      footer once. */
  function Content(data: seq<Release>): string {
    Blocks(data[..Min(Recent, |data|)]) + Footer
  }

  /** What a check decides, given the stored version: `None` when nothing is shown
      (a failed fetch, an empty list, or a newest version already seen), else the
      markdown shown and the version stored. */
  function Decide(stored: Option<string>, fetched: Fetched): (d: Option<(string, string)>)
    ensures d.Some? <==> fetched.Releases? && |fetched.data| > 0
                         && stored != Some(fetched.data[0].version)
    ensures d.Some? ==> d.value.1 == fetched.data[0].version
  {
    if fetched.FetchFailed? || |fetched.data| == 0 then None
    else if stored == Some(fetched.data[0].version) then None
    else Some((Content(fetched.data), fetched.data[0].version))
  }

  /** The `forEach` over `data.slice(0, 5)` that appends each block, then the footer. */
  method BuildContent(data: seq<Release>) returns (content: string)
    ensures content == Content(data)
    ensures |Footer| <= |content| && content[|content| - |Footer|..] == Footer
    ensures data != [] ==> Block(data[0]) <= content
  {
    var recent := data[..Min(Recent, |data|)];
    content := "";
    var i := 0;
    while i < |recent|
      invariant 0 <= i <= |recent|
      invariant content == Blocks(recent[..i])
    {
      BlocksAppend(recent[..i], [recent[i]]);
      assert recent[..i + 1] == recent[..i] + [recent[i]];
      assert Blocks([recent[i]]) == Block(recent[i]);
      content := content + Block(recent[i]);
      i := i + 1;
    }
    assert recent[..i] == recent;
    if data != [] {
      assert recent[0] == data[0];
    }
    content := content + Footer;
  }

  /** A repeat check on the same list decides nothing, once the first check stored
      the newest version. */
  lemma RepeatCheckShowsNothing(stored: Option<string>, fetched: Fetched)
    requires Decide(stored, fetched).Some?
    ensures Decide(Some(Decide(stored, fetched).value.1), fetched).None?
  {
  }

  /** Releases after the fifth are never shown: appending older releases to a list of
      at least five leaves the markdown unchanged. */
  lemma OlderReleasesIgnored(data: seq<Release>, older: seq<Release>)
    requires |data| >= Recent
    ensures Content(data + older) == Content(data)
  {
    assert (data + older)[..Recent] == data[..Recent];
  }

  /** The markdown of a short list lists every release: with at most five, each block
      appears, in list order, followed by the footer. */
  lemma ShortListShowsAll(data: seq<Release>)
    requires |data| <= Recent
    ensures Content(data) == Blocks(data) + Footer
  {
    ShownAll(data, Footer);
  }

  lemma ShownAll(data: seq<Release>, footer: string)
    requires |data| <= Recent
    ensures Blocks(data[..Min(Recent, |data|)]) + footer == Blocks(data) + footer
  {
    assert data[..Min(Recent, |data|)] == data;
  }

  /** The popup element and the local storage entry it consults. */
  class ChangelogPopup {
    var stored: Option<string>
    var hidden: bool
    var shown: string

    constructor(persisted: Option<string>)
      ensures stored == persisted && hidden && shown == ""
    {
      stored := persisted;
      hidden := true;
      shown := "";
    }

    /** `showChangelogPopup`: the list receives the content and `hidden` is removed. */
    method Show(content: string)
      modifies this
      ensures shown == content && !hidden && stored == old(stored)
    {
      shown := content;
      hidden := false;
    }

    /** `hideChangelogPopup`, the close button: `hidden` is added and nothing else
        changes. */
    method Hide()
      modifies this
      ensures hidden && shown == old(shown) && stored == old(stored)
    {
      hidden := true;
    }

    /** `checkChangelog`, once the fetch has settled. */
    method Check(fetched: Fetched)
      modifies this
      ensures Decide(old(stored), fetched).None? ==>
                stored == old(stored) && hidden == old(hidden) && shown == old(shown)
      ensures Decide(old(stored), fetched).Some? ==>
                && shown == Decide(old(stored), fetched).value.0
                && !hidden
                && stored == Some(Decide(old(stored), fetched).value.1)
    {
      if fetched.FetchFailed? {
        return;
      }
      var data := fetched.data;
      if |data| == 0 {
        return;
      }
      var currentVersion := data[0].version;
      if stored != Some(currentVersion) {
        var content := BuildContent(data);
        Show(content);
        stored := Some(currentVersion);
      }
    }
  }
}
