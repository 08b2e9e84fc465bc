/** The page history stack behind the app's back button: showPage records
    every page except the four sign-in pages, moving a revisited page to
    the top, and goBack pops one page. Page rendering is not modelled. */
module Navigation {

  const Dashboard := "dashboardPage"

  /** Pages showPage never records. */
  predicate IsAuthPage(id: string) {
    id in {"loginPage", "registerPage", "forgotPasswordPage", "changePasswordPage"}
  }

  predicate NoDuplicates(s: seq<string>) {
    forall i, j :: 0 <= i < j < |s| ==> s[i] != s[j]
  }

  /** `history.filter(page => page !== id)` */
  function Without(s: seq<string>, x: string): (r: seq<string>)
    ensures forall y :: y in r <==> y in s && y != x
    ensures x !in s ==> r == s
    ensures NoDuplicates(s) ==> NoDuplicates(r)
    ensures |s| == 1 ==> r == if s[0] == x then [] else s
  {
    if s == [] then []
    else
      var rest := s[..|s| - 1];
      var last := s[|s| - 1];
      var front := Without(rest, x);
      assert s == rest + [last];
      assert NoDuplicates(s) ==> last !in front by {
        if NoDuplicates(s) {
          forall i | 0 <= i < |rest| ensures rest[i] != last {
            assert s[i] != s[|s| - 1];
          }
        }
      }
      if last == x then front else front + [last]
  }

  /** The filter works piece by piece, so the pages it keeps stay in
      their order. */
  lemma {:induction false} WithoutConcat(a: seq<string>, b: seq<string>, x: string)
    ensures Without(a + b, x) == Without(a, x) + Without(b, x)
    decreases |b|
  {
    if b == [] {
      assert a + b == a;
    } else {
      var front := b[..|b| - 1];
      var last := b[|b| - 1];
      var kept := if last == x then [] else [last];
      calc {
        Without(a + b, x);
        { assert a + b == (a + front) + [last]; }
        Without((a + front) + [last], x);
        { WithoutSnoc(a + front, last, x); }
        Without(a + front, x) + kept;
        { WithoutConcat(a, front, x); }
        Without(a, x) + Without(front, x) + kept;
        { WithoutSnoc(front, last, x); assert b == front + [last]; }
        Without(a, x) + Without(b, x);
      }
    }
  }

  lemma WithoutSnoc(s: seq<string>, y: string, x: string)
    ensures Without(s + [y], x) == Without(s, x) + (if y == x then [] else [y])
  {
    assert (s + [y])[..|s|] == s;
  }

  /** In a history without duplicates, removing a page that occurs at
      position `i` drops exactly that position. */
  lemma WithoutRemovesOne(s: seq<string>, i: nat)
    requires i < |s| && NoDuplicates(s)
    ensures Without(s, s[i]) == s[..i] + s[i + 1..]
  {
    var x := s[i];
    assert s == s[..i] + [x] + s[i + 1..];
    assert x !in s[..i] by {
      forall k | 0 <= k < i ensures s[..i][k] != x { assert s[k] != s[i]; }
    }
    var tail := s[i + 1..];
    assert x !in tail by {
      forall k | 0 <= k < |tail| ensures tail[k] != x { assert s[i + 1 + k] != s[i]; }
    }
    WithoutConcat(s[..i] + [x], tail, x);
    WithoutConcat(s[..i], [x], x);
  }

  /** The history after showPage(id). */
  function Recorded(history: seq<string>, id: string): (r: seq<string>)
    ensures IsAuthPage(id) ==> r == history
    ensures !IsAuthPage(id) ==> |r| > 0 && r[|r| - 1] == id && r[..|r| - 1] == Without(history, id)
    ensures NoDuplicates(history) ==> NoDuplicates(r)
    ensures forall p :: p in r <==> p in history || (p == id && !IsAuthPage(id))
  {
    if IsAuthPage(id) then history
    else
      var r := Without(history, id) + [id];
      assert r[..|r| - 1] == Without(history, id);
      r
  }

  /** Showing the page that is already on top of a history without
      duplicates leaves the history as it is. */
  lemma {:induction false} RecordedTopIsIdentity(history: seq<string>)
    requires |history| > 0 && NoDuplicates(history)
    requires !IsAuthPage(history[|history| - 1])
    ensures Recorded(history, history[|history| - 1]) == history
  {
    var n := |history| - 1;
    var top := history[n];
    var front := history[..n];
    assert top !in front by {
      forall i | 0 <= i < n ensures front[i] != top { assert history[i] != history[n]; }
    }
    assert history == front + [top];
    assert Without(history, top) == Without(front, top);
  }

  /** `pageHistory` */
  class PageHistory {
    var pages: seq<string>

    /** No page twice, no sign-in page. */
    ghost predicate Valid()
      reads this
    {
      NoDuplicates(pages) && forall p :: p in pages ==> !IsAuthPage(p)
    }

    constructor ()
      ensures Valid() && pages == []
    {
      pages := [];
    }

    /** showPage's history part. */
    method ShowPage(id: string)
      requires Valid()
      modifies this
      ensures Valid()
      ensures pages == Recorded(old(pages), id)
    {
      if !IsAuthPage(id) {
        pages := Without(pages, id);
        pages := pages + [id];
      }
    }

    /** goBack: with at most one page recorded, reset to the dashboard;
        otherwise drop the top and show the page beneath it (an empty page
        name, being falsy, also resets to the dashboard). Returns the page
        shown. */
    method GoBack() returns (shown: string)
      requires Valid()
      modifies this
      ensures Valid()
      ensures |old(pages)| <= 1 ==> shown == Dashboard && pages == [Dashboard]
      ensures |old(pages)| > 1 && old(pages)[|old(pages)| - 2] != "" ==>
        shown == old(pages)[|old(pages)| - 2] && pages == old(pages)[..|old(pages)| - 1]
      ensures |old(pages)| > 1 && old(pages)[|old(pages)| - 2] == "" ==>
        shown == Dashboard && pages == [Dashboard]
    {
      if |pages| <= 1 {
        ShowPage(Dashboard);
        pages := [Dashboard];
        return Dashboard;
      }
      pages := pages[..|pages| - 1];
      var previousPage := pages[|pages| - 1];
      if previousPage != "" {
        RecordedTopIsIdentity(pages);
        ShowPage(previousPage);
        shown := previousPage;
      } else {
        ShowPage(Dashboard);
        pages := [Dashboard];
        shown := Dashboard;
      }
    }
  }
}
