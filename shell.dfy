/** The application shell (App.tsx): it owns the capped generation history,
    the bookmarks, the template waiting to be injected and the active tab.
    Each handler replaces one or two of these by a new list computed from
    the old one. */
module Shell {
  import opened Types
  import opened Seqs
  import Workspace
  import GeminiService
  import Strings

  /** The most entries history keeps. */
  const HistoryLimit: nat := 10

  datatype Tab = WorkspaceTab | LibraryTab | HistoryTab | BookmarksTab

  function Min(a: int, b: int): int
  {
    if a <= b then a else b
  }

  /** `[prompt, ...prev].slice(0, 10)`. */
  function WithNewest(h: seq<GeneratedPrompt>, p: GeneratedPrompt): (r: seq<GeneratedPrompt>)
    ensures |r| == Min(HistoryLimit, |h| + 1) && r[0] == p
    ensures |h| < HistoryLimit ==> r == [p] + h
    ensures |h| >= HistoryLimit ==> r == [p] + h[..HistoryLimit - 1]
  {
    ([p] + h)[..Min(HistoryLimit, |h| + 1)]
  }

  /** The history after generating `ps` in order, starting from `h`. */
  function AfterGenerations(h: seq<GeneratedPrompt>, ps: seq<GeneratedPrompt>): seq<GeneratedPrompt>
  {
    if ps == [] then h else WithNewest(AfterGenerations(h, ps[..|ps| - 1]), ps[|ps| - 1])
  }

  function Reverse<T>(s: seq<T>): (r: seq<T>)
    ensures |r| == |s|
    ensures forall i :: 0 <= i < |s| ==> r[i] == s[|s| - 1 - i]
  {
    if s == [] then [] else [s[|s| - 1]] + Reverse(s[..|s| - 1])
  }

  /** After any number of generations, history holds the most recent ones,
      newest first, then what it held before, cut at the limit. */
  lemma {:induction false} AfterGenerationsKeepsNewest(h: seq<GeneratedPrompt>, ps: seq<GeneratedPrompt>)
    requires |h| <= HistoryLimit
    ensures AfterGenerations(h, ps) == (Reverse(ps) + h)[..Min(HistoryLimit, |ps| + |h|)]
    ensures |AfterGenerations(h, ps)| == Min(HistoryLimit, |ps| + |h|)
    decreases |ps|
  {
    if ps != [] {
      var init := ps[..|ps| - 1];
      var last := ps[|ps| - 1];
      AfterGenerationsKeepsNewest(h, init);
      var prev := AfterGenerations(h, init);
      var m := Min(HistoryLimit, |init| + |h|);
      assert prev == (Reverse(init) + h)[..m];
      assert Reverse(ps) == [last] + Reverse(init);
      var n := Min(HistoryLimit, |ps| + |h|);
      assert n == Min(HistoryLimit, m + 1);
      calc {
        AfterGenerations(h, ps);
        WithNewest(prev, last);
        ([last] + prev)[..n];
        { assert [last] + prev == ([last] + Reverse(init) + h)[..m + 1]; }
        ([last] + Reverse(init) + h)[..m + 1][..n];
        (Reverse(ps) + h)[..n];
      }
    }
  }

  /** Some entry has this id (`prev.find(p => p.id === id)` finds one). */
  predicate HasId(bs: seq<GeneratedPrompt>, id: string)
  {
    exists i :: 0 <= i < |bs| && bs[i].id == id
  }

  /** `prev.filter(p => p.id !== id)`. */
  function WithoutId(bs: seq<GeneratedPrompt>, id: string): (r: seq<GeneratedPrompt>)
    ensures forall b :: b in r <==> b in bs && b.id != id
    ensures IsSubsequence(r, bs)
    ensures !HasId(bs, id) ==> r == bs
  {
    if bs == [] then []
    else
      var rest := WithoutId(bs[1..], id);
      SubsequenceCons(bs[0], rest, bs[1..]);
      assert !HasId(bs, id) ==> !HasId(bs[1..], id) by {
        if HasId(bs[1..], id) {
          var i :| 0 <= i < |bs[1..]| && bs[1..][i].id == id;
          assert bs[i + 1].id == id;
        }
      }
      if bs[0].id != id then [bs[0]] + rest else rest
  }

  /** Removal keeps every copy of an entry with another id and no copy of an
      entry with the removed id. */
  lemma {:induction false} WithoutIdCount(bs: seq<GeneratedPrompt>, id: string)
    ensures forall b :: multiset(WithoutId(bs, id))[b] == if b.id != id then multiset(bs)[b] else 0
  {
    if bs != [] {
      WithoutIdCount(bs[1..], id);
      assert bs == [bs[0]] + bs[1..];
    }
  }

  /** The bookmarks after toggling `p`: every entry with its id removed if
      there is one, else a copy of `p` flagged as bookmarked at the end. */
  function ToggledBookmarks(bs: seq<GeneratedPrompt>, p: GeneratedPrompt): seq<GeneratedPrompt>
  {
    if HasId(bs, p.id) then WithoutId(bs, p.id) else bs + [p.(isBookmarked := true)]
  }

  /** The history after toggling an id: every entry with that id has its
      flag inverted, all others are kept, in place. */
  function FlippedHistory(h: seq<GeneratedPrompt>, id: string): (r: seq<GeneratedPrompt>)
    ensures |r| == |h|
    ensures forall i :: 0 <= i < |h| && h[i].id != id ==> r[i] == h[i]
    ensures forall i :: 0 <= i < |h| && h[i].id == id ==>
              r[i] == h[i].(isBookmarked := !h[i].isBookmarked)
  {
    if h == [] then []
    else
      var e := if h[0].id == id then h[0].(isBookmarked := !h[0].isBookmarked) else h[0];
      [e] + FlippedHistory(h[1..], id)
  }

  /** The ids in the bookmarks are pairwise distinct. */
  predicate DistinctIds(bs: seq<GeneratedPrompt>)
  {
    forall i, j :: 0 <= i < j < |bs| ==> bs[i].id != bs[j].id
  }

  /** Every bookmark carries the bookmarked flag. */
  predicate AllFlagged(bs: seq<GeneratedPrompt>)
  {
    forall i :: 0 <= i < |bs| ==> bs[i].isBookmarked
  }

  predicate BookmarksWellFormed(bs: seq<GeneratedPrompt>)
  {
    DistinctIds(bs) && AllFlagged(bs)
  }

  /** A selection from a list with distinct ids, all flagged, has distinct
      ids and is all flagged. */
  lemma {:induction false} SubsequenceKeepsWellFormed(r: seq<GeneratedPrompt>, bs: seq<GeneratedPrompt>)
    requires IsSubsequence(r, bs) && BookmarksWellFormed(bs)
    ensures BookmarksWellFormed(r)
    decreases |bs|
  {
    if r != [] {
      var tail := bs[1..];
      assert BookmarksWellFormed(tail) by {
        forall i, j | 0 <= i < j < |tail| ensures tail[i].id != tail[j].id {
          assert tail[i] == bs[i + 1] && tail[j] == bs[j + 1];
        }
      }
      if r[0] == bs[0] {
        SubsequenceKeepsWellFormed(r[1..], tail);
        forall j | 0 < j < |r| ensures r[0].id != r[j].id {
          assert r[j] == r[1..][j - 1];
          assert r[1..][j - 1] in r[1..];
          SubsequenceMember(r[1..], tail, r[j]);
          var k :| 0 <= k < |tail| && tail[k] == r[j];
          assert bs[k + 1] == r[j];
        }
        forall i, j | 0 <= i < j < |r| ensures r[i].id != r[j].id {
          if i > 0 {
            assert r[i] == r[1..][i - 1] && r[j] == r[1..][j - 1];
          }
        }
        forall i | 0 <= i < |r| ensures r[i].isBookmarked {
          if i > 0 {
            assert r[i] == r[1..][i - 1];
          }
        }
      } else {
        SubsequenceKeepsWellFormed(r, tail);
      }
    }
  }

  /** Toggling keeps the bookmarks well-formed: ids stay distinct and every
      bookmark stays flagged. */
  lemma ToggleKeepsWellFormed(bs: seq<GeneratedPrompt>, p: GeneratedPrompt)
    requires BookmarksWellFormed(bs)
    ensures BookmarksWellFormed(ToggledBookmarks(bs, p))
  {
    if HasId(bs, p.id) {
      SubsequenceKeepsWellFormed(WithoutId(bs, p.id), bs);
    } else {
      var r := bs + [p.(isBookmarked := true)];
      assert forall i :: 0 <= i < |bs| ==> r[i] == bs[i];
    }
  }

  /** Toggling an id already bookmarked removes every entry with that id
      and keeps the others in order; toggling a new id appends one flagged
      copy after the unchanged others. */
  lemma ToggleCases(bs: seq<GeneratedPrompt>, p: GeneratedPrompt)
    ensures HasId(bs, p.id) ==>
              var r := ToggledBookmarks(bs, p);
              !HasId(r, p.id) && IsSubsequence(r, bs)
              && forall b :: b in bs && b.id != p.id ==> b in r
    ensures !HasId(bs, p.id) ==>
              var r := ToggledBookmarks(bs, p);
              |r| == |bs| + 1 && r[..|bs|] == bs && r[|bs|] == p.(isBookmarked := true)
  {
    if HasId(bs, p.id) {
      var r := WithoutId(bs, p.id);
      assert forall i :: 0 <= i < |r| ==> r[i] in r;
    }
  }

  /** Toggling twice undoes itself on history always, and on bookmarks when
      the id was not bookmarked; when it was, the second toggle brings it
      back as one flagged copy at the end. */
  lemma ToggleTwice(h: seq<GeneratedPrompt>, bs: seq<GeneratedPrompt>, p: GeneratedPrompt)
    ensures FlippedHistory(FlippedHistory(h, p.id), p.id) == h
    ensures !HasId(bs, p.id) ==> ToggledBookmarks(ToggledBookmarks(bs, p), p) == bs
    ensures HasId(bs, p.id) ==>
              ToggledBookmarks(ToggledBookmarks(bs, p), p) == WithoutId(bs, p.id) + [p.(isBookmarked := true)]
  {
    var bs1 := ToggledBookmarks(bs, p);
    if !HasId(bs, p.id) {
      assert bs1[|bs|].id == p.id;
      assert HasId(bs1, p.id);
      assert WithoutId(bs1, p.id) == bs by {
        WithoutIdAppend(bs, p.(isBookmarked := true), p.id);
      }
    } else {
      ToggleCases(bs, p);
    }
  }

  /** A bookmark that is already last, as the flagged copy of `p`, comes back
      exactly after two toggles: the list is restored. */
  lemma ToggleTwiceLast(pre: seq<GeneratedPrompt>, p: GeneratedPrompt)
    requires !HasId(pre, p.id)
    ensures var bs := pre + [p.(isBookmarked := true)];
            ToggledBookmarks(ToggledBookmarks(bs, p), p) == bs
  {
    var bs := pre + [p.(isBookmarked := true)];
    assert bs[|pre|].id == p.id;
    ToggleTwice([], bs, p);
    WithoutIdAppend(pre, p.(isBookmarked := true), p.id);
  }

  /** Removing an id from a list that has it only at the appended end
      gives back the list. */
  lemma {:induction false} WithoutIdAppend(bs: seq<GeneratedPrompt>, e: GeneratedPrompt, id: string)
    requires !HasId(bs, id) && e.id == id
    ensures WithoutId(bs + [e], id) == bs
    decreases |bs|
  {
    if bs == [] {
      assert WithoutId([e], id) == WithoutId([], id);
    } else {
      assert (bs + [e])[1..] == bs[1..] + [e];
      assert forall i :: 0 <= i < |bs[1..]| ==> bs[1..][i] == bs[i + 1];
      WithoutIdAppend(bs[1..], e, id);
      assert bs[0].id != id;
    }
  }

  /** History entry flags agree with bookmark membership. */
  predicate Agree(h: seq<GeneratedPrompt>, bs: seq<GeneratedPrompt>)
  {
    forall i :: 0 <= i < |h| ==> (h[i].isBookmarked <==> HasId(bs, h[i].id))
  }

  /** Inverting the flag keeps agreement only when it held before: from an
      agreeing state, a toggle leaves history and bookmarks agreeing. The
      source does not check this; it inverts rather than recomputes. */
  lemma ToggleKeepsAgreement(h: seq<GeneratedPrompt>, bs: seq<GeneratedPrompt>, p: GeneratedPrompt)
    requires Agree(h, bs)
    ensures Agree(FlippedHistory(h, p.id), ToggledBookmarks(bs, p))
  {
    var h1 := FlippedHistory(h, p.id);
    var bs1 := ToggledBookmarks(bs, p);
    ToggleCases(bs, p);
    forall i | 0 <= i < |h1| ensures h1[i].isBookmarked <==> HasId(bs1, h1[i].id) {
      var id := h[i].id;
      assert h1[i].id == id;
      if id != p.id {
        if HasId(bs, id) {
          var k :| 0 <= k < |bs| && bs[k].id == id;
          if HasId(bs, p.id) {
            assert bs[k] in bs1;
            var j :| 0 <= j < |bs1| && bs1[j] == bs[k];
          } else {
            assert bs1[k] == bs[k];
          }
        }
        if HasId(bs1, id) {
          var k :| 0 <= k < |bs1| && bs1[k].id == id;
          if HasId(bs, p.id) {
            assert bs1[k] in bs1;
            var j :| 0 <= j < |bs| && bs[j] == bs1[k];
          } else {
            assert k < |bs| && bs[k] == bs1[k];
          }
        }
      } else if !HasId(bs, p.id) {
        assert bs1[|bs|].id == p.id;
      }
    }
  }

  /** Disagreement is never repaired: an entry whose flag disagrees with the
      bookmarks before a toggle of its id still disagrees after it. */
  lemma ToggleKeepsDrift(h: seq<GeneratedPrompt>, bs: seq<GeneratedPrompt>, p: GeneratedPrompt, i: nat)
    requires i < |h| && h[i].id == p.id
    requires h[i].isBookmarked != HasId(bs, p.id)
    ensures FlippedHistory(h, p.id)[i].isBookmarked != HasId(ToggledBookmarks(bs, p), p.id)
  {
    ToggleCases(bs, p);
    if !HasId(bs, p.id) {
      assert ToggledBookmarks(bs, p)[|bs|].id == p.id;
    }
  }

  /** The shell's state. */
  class App {
    var activeTab: Tab
    var history: seq<GeneratedPrompt>
    var bookmarks: seq<GeneratedPrompt>
    var selectedTemplate: Option<PromptTemplate>

    ghost predicate Valid()
      reads this
    {
      |history| <= HistoryLimit && BookmarksWellFormed(bookmarks)
    }

    constructor ()
      ensures Valid()
      ensures activeTab == WorkspaceTab && history == [] && bookmarks == [] && selectedTemplate == None
    {
      activeTab := WorkspaceTab;
      history := [];
      bookmarks := [];
      selectedTemplate := None;
    }

    /** `addToHistory`. */
    method AddToHistory(p: GeneratedPrompt)
      requires Valid()
      modifies this
      ensures Valid()
      ensures history == WithNewest(old(history), p)
      ensures bookmarks == old(bookmarks) && selectedTemplate == old(selectedTemplate)
      ensures activeTab == old(activeTab)
    {
      history := WithNewest(history, p);
    }

    /** `toggleBookmark`. */
    method ToggleBookmark(p: GeneratedPrompt)
      requires Valid()
      modifies this
      ensures Valid()
      ensures bookmarks == ToggledBookmarks(old(bookmarks), p)
      ensures history == FlippedHistory(old(history), p.id)
      ensures selectedTemplate == old(selectedTemplate) && activeTab == old(activeTab)
    {
      ToggleKeepsWellFormed(bookmarks, p);
      bookmarks := ToggledBookmarks(bookmarks, p);
      history := FlippedHistory(history, p.id);
    }

    /** `handleInjectTemplate`. */
    method InjectTemplate(t: PromptTemplate)
      requires Valid()
      modifies this
      ensures Valid()
      ensures selectedTemplate == Some(t) && activeTab == WorkspaceTab
      ensures history == old(history) && bookmarks == old(bookmarks)
    {
      selectedTemplate := Some(t);
      activeTab := WorkspaceTab;
    }

    /** Switching tabs from the sidebar or the "Go to Workspace" button. */
    method SelectTab(t: Tab)
      requires Valid()
      modifies this
      ensures Valid()
      ensures activeTab == t
      ensures history == old(history) && bookmarks == old(bookmarks)
      ensures selectedTemplate == old(selectedTemplate)
    {
      activeTab := t;
    }

    /** `onClearTemplate`, called by the composer once it has applied the template. */
    method ClearTemplate()
      requires Valid()
      modifies this
      ensures Valid()
      ensures selectedTemplate == None
      ensures history == old(history) && bookmarks == old(bookmarks) && activeTab == old(activeTab)
    {
      selectedTemplate := None;
    }
  }

  /** Injecting a template from the library. The composer exists only while
      the workspace tab is shown, so switching to it mounts a new composer in
      its initial state; that composer's effect takes the pending template
      over and has the shell clear it. */
  method InjectIntoWorkspace(app: App, t: PromptTemplate) returns (ws: Workspace.Composer)
    requires app.Valid()
    modifies app
    ensures fresh(ws)
    ensures app.Valid()
    ensures ws.state == Workspace.TemplateState(t) && ws.output == "" && !ws.isGenerating
    ensures app.selectedTemplate == None && app.activeTab == WorkspaceTab
    ensures app.history == old(app.history) && app.bookmarks == old(app.bookmarks)
  {
    app.InjectTemplate(t);
    ws := new Workspace.Composer();
    var cleared := ws.ApplyTemplate(app.selectedTemplate);
    if cleared {
      app.ClearTemplate();
    }
  }

  /** A generation whose record reaches the shell through `onGenerated`;
      `sent` is the request the composer sent, if any. */
  method GenerateIntoHistory(app: App, ws: Workspace.Composer, stream: GeminiService.Stream, id: string, timestamp: int)
    returns (sent: Option<GeminiService.Request>)
    requires app.Valid()
    modifies app, ws
    ensures app.Valid()
    ensures Workspace.BlankSeed(old(ws.state)) ==> sent == None
    ensures !Workspace.BlankSeed(old(ws.state)) ==> sent == Some(GeminiService.BuildRequest(old(ws.state)))
    ensures Workspace.BlankSeed(old(ws.state)) ==> app.history == old(app.history)
    ensures !Workspace.BlankSeed(old(ws.state)) ==>
              app.history == WithNewest(old(app.history), Workspace.Record(old(ws.state),
                Strings.Concat(GeminiService.Delivered(stream)), id, timestamp))
    ensures app.bookmarks == old(app.bookmarks) && app.selectedTemplate == old(app.selectedTemplate)
    ensures app.activeTab == old(app.activeTab)
    ensures ws.state == old(ws.state)
    ensures Workspace.BlankSeed(old(ws.state)) ==>
              ws.output == old(ws.output) && ws.isGenerating == old(ws.isGenerating)
    ensures !Workspace.BlankSeed(old(ws.state)) ==>
              ws.output == Strings.Concat(GeminiService.Delivered(stream)) && !ws.isGenerating
  {
    var emitted;
    sent, emitted := ws.Generate(stream, id, timestamp);
    if emitted.Some? {
      app.AddToHistory(emitted.value);
    }
  }
}
