/** pollFreeGames (internal/notify/freegames.go): the retrying producer in front of the notification queue. */
module FreeGames {
  import opened Options

  /** `text` is what its message says: heading, source, content and link. */
  datatype Item = Item(guid: string, title: string, text: string)

  /** One webhook call; ok means the bridge answered with success. */
  datatype Post = Post(guid: string, thread: string, ok: bool)

  /** game_seen as guid -> title, the titles seen (None when their query failed), and the calls made. */
  datatype Poller = Poller(seen: map<string, string>, titles: Option<set<string>>, log: seq<Post>)

  /** normalizeGameTitle, the fate of the n-th call ever made, and of the insert for the i-th item. */
  datatype World = World(norm: string -> string, posts: nat -> bool, insertFails: nat -> bool)

  /** INSERT ... ON CONFLICT (guid) DO NOTHING */
  function InsertSeen(seen: map<string, string>, item: Item): (r: map<string, string>) {
    if item.guid in seen then seen else seen[item.guid := item.title]
  }

  /** The calls for one item: thread by thread up to the first failure. */
  function PostAll(log: seq<Post>, guid: string, threads: seq<string>, w: World): (r: (seq<Post>, bool))
    decreases |threads|
  {
    if threads == [] then (log, true)
    else
      var ok := w.posts(|log|);
      var next := log + [Post(guid, threads[0], ok)];
      if ok then PostAll(next, guid, threads[1..], w) else (next, false)
  }

  /** The loop body for item number i; `known` are the guids found seen when the poll began. */
  function PollItem(p: Poller, known: set<string>, item: Item, i: nat, threads: seq<string>, w: World): (r: Poller) {
    if item.guid in known then p
    else if p.titles.Some? && w.norm(item.title) in p.titles.value then
      (if w.insertFails(i) then p else p.(seen := InsertSeen(p.seen, item)))
    else
      var (log, ok) := PostAll(p.log, item.guid, threads, w);
      if !ok || w.insertFails(i) then p.(log := log)
      else
        Poller(InsertSeen(p.seen, item),
               if p.titles.Some? then Some(p.titles.value + {w.norm(item.title)}) else None, log)
  }

  function PollItems(p: Poller, known: set<string>, items: seq<Item>, threads: seq<string>, w: World): (r: Poller) {
    if items == [] then p
    else PollItem(PollItems(p, known, items[..|items| - 1], threads, w), known, items[|items| - 1], |items| - 1,
                  threads, w)
  }

  /** Where the loop starts. */
  function PollStart(seen: map<string, string>, titlesFail: bool, log: seq<Post>, norm: string -> string): (p: Poller) {
    Poller(seen, if titlesFail then None else Some(set g | g in seen :: norm(seen[g])), log)
  }

  class FreeGameService {
    var seen: map<string, string>
    var log: seq<Post>

    constructor ()
      ensures seen == map[] && log == []
    {
      seen, log := map[], [];
    }

    /** Posts one item to the configured threads. */
    method PostToThreads(guid: string, threads: seq<string>, w: World) returns (ok: bool)
      modifies this`log
      ensures (log, ok) == PostAll(old(log), guid, threads, w)
    {
      ok := true;
      var i := 0;
      while i < |threads|
        invariant 0 <= i <= |threads|
        invariant ok && PostAll(log, guid, threads[i..], w) == PostAll(old(log), guid, threads, w)
      {
        var posted := w.posts(|log|);
        assert threads[i..][1..] == threads[i + 1..];
        log := log + [Post(guid, threads[i], posted)];
        if !posted {
          ok := false;
          break;
        }
        i := i + 1;
      }
    }

    method PollFreeGames(items: seq<Item>, threads: seq<string>, titlesFail: bool, w: World)
      modifies this
      ensures old(log) <= log && exists calls, marked ::
          && PollTold(old(seen), titlesFail, items, threads, w, log[|old(log)|..], calls, marked)
          && SeenTold(old(seen), titlesFail, items, w, marked, seen)
      ensures
        var p := PollStart(old(seen), titlesFail, old(log), w.norm);
        var r := PollItems(p, old(seen).Keys, items, threads, w);
        seen == r.seen && log == r.log
    {
      var known := seen.Keys;
      var titleSeen := if titlesFail then None else Some(set g | g in seen :: w.norm(seen[g]));
      ghost var p0 := Poller(seen, titleSeen, log);
      for i := 0 to |items|
        invariant Poller(seen, titleSeen, log) == PollItems(p0, known, items[..i], threads, w)
      {
        assert items[..i + 1][..i] == items[..i];
        var item := items[i];
        var titleKey := w.norm(item.title);
        if item.guid in known || (titleSeen.Some? && titleKey in titleSeen.value) {
          if item.guid !in known && !w.insertFails(i) {
            seen := InsertSeen(seen, item);
          }
          continue;
        }
        var ok := PostToThreads(item.guid, threads, w);
        if !ok {
          continue;
        }
        if w.insertFails(i) {
          continue;
        }
        seen := InsertSeen(seen, item);
        if titleSeen.Some? {
          titleSeen := Some(titleSeen.value + {titleKey});
        }
      }
      assert items[..|items|] == items;
      ghost var calls, marked := PollTells(old(seen), titlesFail, old(log), items, threads, w);
    }
  }

  // ---------------------------------------------------------------- marked only when accepted everywhere

  predicate AcceptedEverywhere(log: seq<Post>, guid: string, threads: seq<string>) {
    forall t :: t in threads ==> Post(guid, t, true) in log
  }

  /** The calls made since p0. */
  function Since(p0: Poller, log: seq<Post>): (r: seq<Post>) {
    if |p0.log| <= |log| then log[|p0.log|..] else []
  }

  /** The title is that of an item marked before, or of one of these items that went to every thread. */
  ghost predicate TitleCovered(p0: Poller, log: seq<Post>, items: seq<Item>, title: string, threads: seq<string>,
                               w: World)
  {
    || (exists g :: g in p0.seen && w.norm(p0.seen[g]) == title)
    || (exists it :: it in items && w.norm(it.title) == title && AcceptedEverywhere(Since(p0, log), it.guid, threads))
  }

  ghost predicate MarkedRightly(p0: Poller, p: Poller, items: seq<Item>, g: string, threads: seq<string>, w: World)
    requires g in p.seen
  {
    AcceptedEverywhere(Since(p0, p.log), g, threads) || TitleCovered(p0, p.log, items, w.norm(p.seen[g]), threads, w)
  }

  ghost predicate PollerOk(p0: Poller, p: Poller, items: seq<Item>, threads: seq<string>, w: World) {
    && p0.log <= p.log
    && (forall g :: g in p0.seen ==> g in p.seen && p.seen[g] == p0.seen[g])
    && (p.titles.Some? ==> forall t :: t in p.titles.value ==> TitleCovered(p0, p.log, items, t, threads, w))
    && (forall g :: g in p.seen && g !in p0.seen ==> MarkedRightly(p0, p, items, g, threads, w))
  }

  lemma {:induction false} PostAllAccepts(log: seq<Post>, guid: string, threads: seq<string>, w: World)
    ensures var (r, ok) := PostAll(log, guid, threads, w);
      log <= r && (ok ==> AcceptedEverywhere(r[|log|..], guid, threads))
    decreases |threads|
  {
    if threads != [] {
      var next := log + [Post(guid, threads[0], w.posts(|log|))];
      if w.posts(|log|) {
        PostAllAccepts(next, guid, threads[1..], w);
        var (r, ok) := PostAll(next, guid, threads[1..], w);
        assert r[|log|..] == [next[|log|]] + r[|next|..];
        assert threads == [threads[0]] + threads[1..];
      }
    }
  }

  /** More calls and more items never take a reason away. */
  lemma CoveredLater(p0: Poller, a: seq<Post>, b: seq<Post>, items: seq<Item>, item: Item, title: string,
                     threads: seq<string>, w: World)
    requires p0.log <= a <= b && TitleCovered(p0, a, items, title, threads, w)
    ensures TitleCovered(p0, b, items + [item], title, threads, w)
  {
    AcceptedLater(p0, a, b, threads);
  }

  lemma AcceptedLater(p0: Poller, a: seq<Post>, b: seq<Post>, threads: seq<string>)
    requires p0.log <= a <= b
    ensures forall g :: AcceptedEverywhere(Since(p0, a), g, threads) ==> AcceptedEverywhere(Since(p0, b), g, threads)
  {
    assert Since(p0, a) <= Since(p0, b);
  }

  lemma AcceptedNow(p0: Poller, log: seq<Post>, guid: string, threads: seq<string>, w: World)
    requires p0.log <= log && PostAll(log, guid, threads, w).1
    ensures AcceptedEverywhere(Since(p0, PostAll(log, guid, threads, w).0), guid, threads)
  {
    hide PostAll;
    PostAllAccepts(log, guid, threads, w);
    var r := PostAll(log, guid, threads, w).0;
    assert forall x :: x in r[|log|..] ==> x in Since(p0, r);
  }

  lemma PollItemOk(p0: Poller, p: Poller, items: seq<Item>, known: set<string>, item: Item, i: nat,
                   threads: seq<string>, w: World)
    requires PollerOk(p0, p, items, threads, w)
    ensures PollerOk(p0, PollItem(p, known, item, i, threads, w), items + [item], threads, w)
  {
    hide AcceptedEverywhere, PostAll, TitleCovered, Since;
    var r := PollItem(p, known, item, i, threads, w);
    PostAllAccepts(p.log, item.guid, threads, w);
    AcceptedLater(p0, p.log, r.log, threads);
    forall t | TitleCovered(p0, p.log, items, t, threads, w)
      ensures TitleCovered(p0, r.log, items + [item], t, threads, w)
    {
      CoveredLater(p0, p.log, r.log, items, item, t, threads, w);
    }
    if PostAll(p.log, item.guid, threads, w).1 {
      AcceptedNow(p0, p.log, item.guid, threads, w);
    }
    NewTitleCovered(p0, r.log, items, item, threads, w);
  }

  lemma NewTitleCovered(p0: Poller, log: seq<Post>, items: seq<Item>, item: Item, threads: seq<string>, w: World)
    ensures AcceptedEverywhere(Since(p0, log), item.guid, threads) ==>
      TitleCovered(p0, log, items + [item], w.norm(item.title), threads, w)
  {
    hide AcceptedEverywhere, Since;
    assert item in items + [item];
  }

  lemma {:induction false} PollItemsOk(p: Poller, items: seq<Item>, threads: seq<string>, w: World)
    requires p.titles.Some? ==> p.titles.value == (set g | g in p.seen :: w.norm(p.seen[g]))
    ensures PollerOk(p, PollItems(p, p.seen.Keys, items, threads, w), items, threads, w)
  {
    if items != [] {
      PollItemsOk(p, items[..|items| - 1], threads, w);
      PollItemOk(p, PollItems(p, p.seen.Keys, items[..|items| - 1], threads, w), items[..|items| - 1], p.seen.Keys,
                 items[|items| - 1], |items| - 1, threads, w);
      assert items == items[..|items| - 1] + [items[|items| - 1]];
    }
  }

  /** An item newly marked seen was accepted for every thread during this very poll, or its title was known
      from an earlier mark or from an item so accepted. */
  lemma MarkedOnlyWhenAccepted(p: Poller, items: seq<Item>, threads: seq<string>, w: World, g: string)
    requires p.titles.Some? ==> p.titles.value == (set h | h in p.seen :: w.norm(p.seen[h]))
    requires var r := PollItems(p, p.seen.Keys, items, threads, w); g in r.seen && g !in p.seen
    ensures var r := PollItems(p, p.seen.Keys, items, threads, w); MarkedRightly(p, r, items, g, threads, w)
  {
    PollItemsOk(p, items, threads, w);
  }

  /** Without the title query nothing but acceptance everywhere marks an item. */
  lemma {:induction false} MarkedWithoutTitles(p: Poller, known: set<string>, items: seq<Item>, threads: seq<string>,
                                               w: World, g: string)
    requires p.titles.None?
    requires var r := PollItems(p, known, items, threads, w); g in r.seen && g !in p.seen
    ensures var r := PollItems(p, known, items, threads, w);
      p.log <= r.log && r.titles.None? && AcceptedEverywhere(Since(p, r.log), g, threads)
  {
    hide PostAll, AcceptedEverywhere, Since;
    if items != [] {
      var before := PollItems(p, known, items[..|items| - 1], threads, w);
      var item := items[|items| - 1];
      NoTitles(p, known, items[..|items| - 1], threads, w);
      PostAllAccepts(before.log, item.guid, threads, w);
      var r := PollItem(before, known, item, |items| - 1, threads, w);
      AcceptedLater(p, before.log, r.log, threads);
      if g in before.seen {
        MarkedWithoutTitles(p, known, items[..|items| - 1], threads, w, g);
      } else {
        AcceptedNow(p, before.log, item.guid, threads, w);
      }
    }
  }

  lemma {:induction false} NoTitles(p: Poller, known: set<string>, items: seq<Item>, threads: seq<string>, w: World)
    requires p.titles.None?
    ensures PollItems(p, known, items, threads, w).titles.None? && p.log <= PollItems(p, known, items, threads, w).log
  {
    hide PostAll;
    if items != [] {
      NoTitles(p, known, items[..|items| - 1], threads, w);
      PostAllAccepts(PollItems(p, known, items[..|items| - 1], threads, w).log, items[|items| - 1].guid, threads, w);
    }
  }

  // ---------------------------------------------------------------- which items are called for

  /** These calls offer the item to the threads in order, up to the first refusal. */
  predicate CallsFor(calls: seq<Post>, guid: string, threads: seq<string>) {
    && |calls| <= |threads|
    && (forall k :: 0 <= k < |calls| ==> calls[k].guid == guid && calls[k].thread == threads[k])
    && (forall k :: 0 <= k < |calls| - 1 ==> calls[k].ok)
    && (|calls| < |threads| ==> calls != [] && !calls[|calls| - 1].ok)
  }

  predicate AllAccepted(calls: seq<Post>, threads: seq<string>) {
    |calls| == |threads| && forall k :: 0 <= k < |calls| ==> calls[k].ok
  }

  /** Item i is new: its guid was not seen when the poll began, and, if the titles could be read, neither was its title,
      and no item before it with that title was marked in this poll. */
  ghost predicate IsNew(seen: map<string, string>, titlesFail: bool, items: seq<Item>, marked: seq<bool>, i: nat,
                        w: World)
    requires i < |items| && i <= |marked|
  {
    var title := w.norm(items[i].title);
    && items[i].guid !in seen
    && (!titlesFail ==>
          && (forall g :: g in seen ==> w.norm(seen[g]) != title)
          && (forall j :: 0 <= j < i && marked[j] ==> w.norm(items[j].title) != title))
  }

  function Together(calls: seq<seq<Post>>): (r: seq<Post>) {
    if calls == [] then [] else Together(calls[..|calls| - 1]) + calls[|calls| - 1]
  }

  /** What a poll did, item by item: `calls[i]` are those made for item i, `marked[i]` says that it was accepted for
      every thread and written down. New items are called for and no others. */
  ghost predicate PollTold(seen: map<string, string>, titlesFail: bool, items: seq<Item>, threads: seq<string>,
                           w: World, made: seq<Post>, calls: seq<seq<Post>>, marked: seq<bool>)
  {
    && |calls| == |items| && |marked| == |items| && made == Together(calls)
    && forall i :: 0 <= i < |items| ==> ItemTold(seen, titlesFail, items, threads, w, calls[i], marked, i)
  }

  ghost predicate ItemTold(seen: map<string, string>, titlesFail: bool, items: seq<Item>, threads: seq<string>,
                           w: World, calls: seq<Post>, marked: seq<bool>, i: nat)
    requires i < |items| && |marked| == |items|
  {
    if IsNew(seen, titlesFail, items, marked, i, w)
    then CallsFor(calls, items[i].guid, threads) && (marked[i] <==> AllAccepted(calls, threads) && !w.insertFails(i))
    else calls == [] && !marked[i]
  }

  lemma {:induction false} PostAllTells(log: seq<Post>, guid: string, threads: seq<string>, w: World)
    ensures var (r, ok) := PostAll(log, guid, threads, w);
      && log <= r && CallsFor(r[|log|..], guid, threads) && (ok <==> AllAccepted(r[|log|..], threads))
    decreases |threads|
  {
    if threads != [] {
      var next := log + [Post(guid, threads[0], w.posts(|log|))];
      if w.posts(|log|) {
        PostAllTells(next, guid, threads[1..], w);
        var (r, ok) := PostAll(next, guid, threads[1..], w);
        assert r[|log|..] == [next[|log|]] + r[|next|..];
      }
    }
  }

  ghost predicate TitleOf(seen: map<string, string>, items: seq<Item>, marked: seq<bool>, w: World, title: string)
    requires |marked| == |items|
  {
    || (exists g :: g in seen && w.norm(seen[g]) == title)
    || (exists j :: 0 <= j < |items| && marked[j] && w.norm(items[j].title) == title)
  }

  /** The titles the loop holds: those seen at the start and those of the items marked. */
  ghost predicate TitlesTold(seen: map<string, string>, titlesFail: bool, items: seq<Item>, marked: seq<bool>, w: World,
                             titles: Option<set<string>>)
    requires |marked| == |items|
  {
    && titles.None? == titlesFail
    && (titles.Some? ==> forall t :: t in titles.value <==> TitleOf(seen, items, marked, w, t))
  }

  /** The item that comes next is new exactly if the loop calls for it. */
  lemma NewIsCalled(seen: map<string, string>, titlesFail: bool, front: seq<Item>, item: Item, marked: seq<bool>,
                    w: World, titles: Option<set<string>>)
    requires |marked| == |front| && TitlesTold(seen, titlesFail, front, marked, w, titles)
    ensures IsNew(seen, titlesFail, front + [item], marked, |front|, w)
      <==> item.guid !in seen.Keys && !(titles.Some? && w.norm(item.title) in titles.value)
  {
    var items := front + [item];
    assert forall j :: 0 <= j < |front| ==> items[j] == front[j];
    if titles.Some? {
      assert w.norm(item.title) in titles.value <==> TitleOf(seen, front, marked, w, w.norm(item.title));
    }
  }

  /** One item: what the loop body does is told, and the titles are those told. */
  lemma ItemTells(seen: map<string, string>, titlesFail: bool, p: Poller, front: seq<Item>, item: Item,
                  marked: seq<bool>, threads: seq<string>, w: World)
    requires |marked| == |front| && TitlesTold(seen, titlesFail, front, marked, w, p.titles)
    ensures var r := PollItem(p, seen.Keys, item, |front|, threads, w);
      var calls := if p.log <= r.log then r.log[|p.log|..] else [];
      var mark := IsNew(seen, titlesFail, front + [item], marked, |front|, w) && AllAccepted(calls, threads)
        && !w.insertFails(|front|);
      && p.log <= r.log
      && ItemTold(seen, titlesFail, front + [item], threads, w, calls, marked + [mark], |front|)
      && TitlesTold(seen, titlesFail, front + [item], marked + [mark], w, r.titles)
  {
    var r := PollItem(p, seen.Keys, item, |front|, threads, w);
    PostAllTells(p.log, item.guid, threads, w);
    NewIsCalled(seen, titlesFail, front, item, marked, w, p.titles);
    hide PostAll, CallsFor, AllAccepted, TitleOf;
    var calls := r.log[|p.log|..];
    var isNew := IsNew(seen, titlesFail, front + [item], marked, |front|, w);
    var mark := isNew && AllAccepted(calls, threads) && !w.insertFails(|front|);
    SameNewness(seen, titlesFail, front + [item], marked, mark, w);
    hide IsNew;
    forall t ensures TitleOf(seen, front + [item], marked + [mark], w, t)
      <==> TitleOf(seen, front, marked, w, t) || (mark && t == w.norm(item.title))
    {
      OneMoreTitle(seen, front, item, marked, mark, w, t);
    }
  }

  lemma OneMoreTitle(seen: map<string, string>, front: seq<Item>, item: Item, marked: seq<bool>, mark: bool, w: World,
                     t: string)
    requires |marked| == |front|
    ensures TitleOf(seen, front + [item], marked + [mark], w, t)
      <==> TitleOf(seen, front, marked, w, t) || (mark && t == w.norm(item.title))
  {
    var items, marks := front + [item], marked + [mark];
    assert items[|front|] == item && marks[|front|] == mark;
    assert forall j :: 0 <= j < |front| ==> items[j] == front[j] && marks[j] == marked[j];
  }

  /** Whether an item is new does not depend on marks from it on. */
  lemma SameNewness(seen: map<string, string>, titlesFail: bool, items: seq<Item>, marked: seq<bool>, mark: bool,
                    w: World)
    requires |items| == |marked| + 1
    ensures IsNew(seen, titlesFail, items, marked + [mark], |marked|, w) <==>
      IsNew(seen, titlesFail, items, marked, |marked|, w)
  {
    assert forall j :: 0 <= j < |marked| ==> (marked + [mark])[j] == marked[j];
  }

  /** What was told of earlier items stays told. */
  lemma EarlierTold(seen: map<string, string>, titlesFail: bool, front: seq<Item>, item: Item, threads: seq<string>,
                    w: World, calls: seq<Post>, marked: seq<bool>, mark: bool, i: nat)
    requires i < |front| == |marked| && ItemTold(seen, titlesFail, front, threads, w, calls, marked, i)
    ensures ItemTold(seen, titlesFail, front + [item], threads, w, calls, marked + [mark], i)
  {
    hide CallsFor, AllAccepted;
    var items, marks := front + [item], marked + [mark];
    assert forall j :: 0 <= j < |front| ==> items[j] == front[j] && marks[j] == marked[j];
  }

  /** Item i is written down: it was accepted for every thread, or its title was known, and the insert succeeded. */
  ghost predicate Noted(seen: map<string, string>, titlesFail: bool, items: seq<Item>, w: World, marked: seq<bool>,
                        i: nat)
    requires i < |items| == |marked|
  {
    && items[i].guid !in seen && !w.insertFails(i)
    && (marked[i] || !IsNew(seen, titlesFail, items, marked, i, w))
  }

  /** The guids on record are those from before and those of the items written down, with the title they came with
      first. */
  ghost predicate SeenTold(seen: map<string, string>, titlesFail: bool, items: seq<Item>, w: World, marked: seq<bool>,
                           seen': map<string, string>)
    requires |items| == |marked|
  {
    && (forall g :: g in seen ==> g in seen' && seen'[g] == seen[g])
    && (forall i :: 0 <= i < |items| && Noted(seen, titlesFail, items, w, marked, i) ==> items[i].guid in seen')
    && (forall g :: g in seen' && g !in seen ==>
          exists i ::
            0 <= i < |items| && FirstNoted(seen, titlesFail, items, w, marked, i, g) && seen'[g] == items[i].title)
  }

  ghost predicate FirstNoted(seen: map<string, string>, titlesFail: bool, items: seq<Item>, w: World, marked: seq<bool>,
                             i: nat, g: string)
    requires i < |items| == |marked|
  {
    && items[i].guid == g && Noted(seen, titlesFail, items, w, marked, i)
    && forall j :: 0 <= j < i && items[j].guid == g ==> !Noted(seen, titlesFail, items, w, marked, j)
  }

  lemma SameNoted(seen: map<string, string>, titlesFail: bool, front: seq<Item>, item: Item, w: World,
                  marked: seq<bool>, mark: bool, i: nat)
    requires i < |front| == |marked|
    ensures Noted(seen, titlesFail, front + [item], w, marked + [mark], i) <==>
      Noted(seen, titlesFail, front, w, marked, i)
    ensures forall g ::
        FirstNoted(seen, titlesFail, front + [item], w, marked + [mark], i, g) <==>
        FirstNoted(seen, titlesFail, front, w, marked, i, g)
  {
    var items, marks := front + [item], marked + [mark];
    assert forall j :: 0 <= j < |front| ==> items[j] == front[j] && marks[j] == marked[j];
    forall j: nat | j <= i
      ensures IsNew(seen, titlesFail, items, marks, j, w) <==> IsNew(seen, titlesFail, front, marked, j, w)
    {
    }
  }

  /** One item: what is on record after it. */
  lemma ItemNoted(seen: map<string, string>, titlesFail: bool, p: Poller, front: seq<Item>, item: Item,
                  marked: seq<bool>, threads: seq<string>, w: World)
    requires |marked| == |front| && TitlesTold(seen, titlesFail, front, marked, w, p.titles)
    requires SeenTold(seen, titlesFail, front, w, marked, p.seen)
    ensures var r := PollItem(p, seen.Keys, item, |front|, threads, w);
      var calls := if p.log <= r.log then r.log[|p.log|..] else [];
      var mark := IsNew(seen, titlesFail, front + [item], marked, |front|, w) && AllAccepted(calls, threads)
        && !w.insertFails(|front|);
      SeenTold(seen, titlesFail, front + [item], w, marked + [mark], r.seen)
  {
    var r := PollItem(p, seen.Keys, item, |front|, threads, w);
    PostAllTells(p.log, item.guid, threads, w);
    NewIsCalled(seen, titlesFail, front, item, marked, w, p.titles);
    hide PostAll, CallsFor, AllAccepted, TitlesTold;
    var items, n := front + [item], |front|;
    var mark := IsNew(seen, titlesFail, items, marked, n, w) && AllAccepted(r.log[|p.log|..], threads)
      && !w.insertFails(n);
    SameNewness(seen, titlesFail, items, marked, mark, w);
    hide IsNew;
    var noted := Noted(seen, titlesFail, items, w, marked + [mark], n);
    assert r.seen == if noted then InsertSeen(p.seen, item) else p.seen;
    hide PollItem;
    SeenMore(seen, titlesFail, front, item, w, marked, mark, p.seen, r.seen);
  }

  lemma SeenMore(seen: map<string, string>, titlesFail: bool, front: seq<Item>, item: Item, w: World, marked: seq<bool>,
                 mark: bool, before: map<string, string>, after: map<string, string>)
    requires |marked| == |front| && SeenTold(seen, titlesFail, front, w, marked, before)
    requires var noted := Noted(seen, titlesFail, front + [item], w, marked + [mark], |front|);
      after == if noted then InsertSeen(before, item) else before
    ensures SeenTold(seen, titlesFail, front + [item], w, marked + [mark], after)
  {
    var items, marks, n := front + [item], marked + [mark], |front|;
    hide Noted, FirstNoted;
    forall i: nat | i < n
      ensures Noted(seen, titlesFail, items, w, marks, i) <==> Noted(seen, titlesFail, front, w, marked, i)
      ensures forall g ::
          FirstNoted(seen, titlesFail, items, w, marks, i, g) <==> FirstNoted(seen, titlesFail, front, w, marked, i, g)
      ensures items[i] == front[i]
    {
      SameNoted(seen, titlesFail, front, item, w, marked, mark, i);
    }
    forall g | g in after && g !in seen
      ensures exists i ::
          0 <= i < |items| && FirstNoted(seen, titlesFail, items, w, marks, i, g) && after[g] == items[i].title
    {
      if g in before {
        var i :| 0 <= i < n && FirstNoted(seen, titlesFail, front, w, marked, i, g) && before[g] == front[i].title;
        assert FirstNoted(seen, titlesFail, items, w, marks, i, g);
      } else {
        LastIsFirst(seen, titlesFail, front, item, w, marked, mark, before, g);
      }
    }
  }

  lemma LastIsFirst(seen: map<string, string>, titlesFail: bool, front: seq<Item>, item: Item, w: World,
                    marked: seq<bool>, mark: bool, before: map<string, string>, g: string)
    requires |marked| == |front| && SeenTold(seen, titlesFail, front, w, marked, before)
    requires g !in before && item.guid == g
    requires Noted(seen, titlesFail, front + [item], w, marked + [mark], |front|)
    ensures FirstNoted(seen, titlesFail, front + [item], w, marked + [mark], |front|, g)
  {
    var items, marks := front + [item], marked + [mark];
    hide Noted;
    forall j: nat | j < |front| && items[j].guid == g ensures !Noted(seen, titlesFail, items, w, marks, j) {
      SameNoted(seen, titlesFail, front, item, w, marked, mark, j);
      assert front[j].guid == g;
    }
  }

  lemma ToldMore(seen: map<string, string>, titlesFail: bool, front: seq<Item>, item: Item, threads: seq<string>,
                 w: World, made: seq<Post>, calls: seq<seq<Post>>, marked: seq<bool>, c: seq<Post>, mark: bool)
    requires PollTold(seen, titlesFail, front, threads, w, made, calls, marked)
    requires ItemTold(seen, titlesFail, front + [item], threads, w, c, marked + [mark], |front|)
    ensures PollTold(seen, titlesFail, front + [item], threads, w, made + c, calls + [c], marked + [mark])
  {
    hide ItemTold;
    forall i | 0 <= i < |front|
      ensures ItemTold(seen, titlesFail, front + [item], threads, w, calls[i], marked + [mark], i)
    {
      EarlierTold(seen, titlesFail, front, item, threads, w, calls[i], marked, mark, i);
    }
    assert (calls + [c])[..|front|] == calls;
  }

  /** The four parts of what a poll told so far. */
  ghost predicate SoFar(seen: map<string, string>, titlesFail: bool, log: seq<Post>, items: seq<Item>,
                        threads: seq<string>, w: World, r: Poller, calls: seq<seq<Post>>, marked: seq<bool>)
  {
    && log <= r.log && PollTold(seen, titlesFail, items, threads, w, r.log[|log|..], calls, marked)
    && TitlesTold(seen, titlesFail, items, marked, w, r.titles)
    && SeenTold(seen, titlesFail, items, w, marked, r.seen)
  }

  lemma NothingTold(seen: map<string, string>, titlesFail: bool, log: seq<Post>, threads: seq<string>, w: World)
    ensures SoFar(seen, titlesFail, log, [], threads, w, PollStart(seen, titlesFail, log, w.norm), [], [])
  {
    var titles := PollStart(seen, titlesFail, log, w.norm).titles;
    if titles.Some? {
      forall t ensures t in titles.value <==> TitleOf(seen, [], [], w, t) {
      }
    }
  }

  lemma ToldLengths(seen: map<string, string>, titlesFail: bool, items: seq<Item>, threads: seq<string>, w: World,
                    made: seq<Post>, calls: seq<seq<Post>>, marked: seq<bool>)
    requires PollTold(seen, titlesFail, items, threads, w, made, calls, marked)
    ensures |calls| == |items| == |marked|
  {
    hide ItemTold;
  }

  lemma OneMoreTold(seen: map<string, string>, titlesFail: bool, log: seq<Post>, front: seq<Item>, item: Item,
                    threads: seq<string>, w: World, p: Poller, calls: seq<seq<Post>>, marked: seq<bool>)
    returns (c: seq<Post>, mark: bool)
    requires SoFar(seen, titlesFail, log, front, threads, w, p, calls, marked)
    ensures SoFar(seen, titlesFail, log, front + [item], threads, w, PollItem(p, seen.Keys, item, |front|, threads, w),
                  calls + [c], marked + [mark])
  {
    hide PollItem, ItemTold, IsNew, AllAccepted, TitlesTold, SeenTold, PollTold;
    ToldLengths(seen, titlesFail, front, threads, w, p.log[|log|..], calls, marked);
    var r := PollItem(p, seen.Keys, item, |front|, threads, w);
    ItemTells(seen, titlesFail, p, front, item, marked, threads, w);
    ItemNoted(seen, titlesFail, p, front, item, marked, threads, w);
    c := r.log[|p.log|..];
    mark := IsNew(seen, titlesFail, front + [item], marked, |front|, w) && AllAccepted(c, threads)
      && !w.insertFails(|front|);
    assert r.log[|log|..] == p.log[|log|..] + c;
    ToldMore(seen, titlesFail, front, item, threads, w, p.log[|log|..], calls, marked, c, mark);
  }

  lemma {:induction false} LoopTells(seen: map<string, string>, titlesFail: bool, log: seq<Post>, items: seq<Item>,
                                     threads: seq<string>, w: World)
    returns (calls: seq<seq<Post>>, marked: seq<bool>)
    ensures SoFar(seen, titlesFail, log, items, threads, w,
                  PollItems(PollStart(seen, titlesFail, log, w.norm), seen.Keys, items, threads, w), calls, marked)
  {
    hide PollStart, PollItem, SoFar;
    calls, marked := [], [];
    if items == [] {
      NothingTold(seen, titlesFail, log, threads, w);
    } else {
      var n := |items| - 1;
      calls, marked := LoopTells(seen, titlesFail, log, items[..n], threads, w);
      var p := PollItems(PollStart(seen, titlesFail, log, w.norm), seen.Keys, items[..n], threads, w);
      var c, mark := OneMoreTold(seen, titlesFail, log, items[..n], items[n], threads, w, p, calls, marked);
      assert items == items[..n] + [items[n]];
      calls, marked := calls + [c], marked + [mark];
    }
  }

  /** What a poll does, from its items and the outcomes of its calls and inserts: which items it calls for, and what is
      on record afterwards. */
  lemma PollTells(seen: map<string, string>, titlesFail: bool, log: seq<Post>, items: seq<Item>, threads: seq<string>,
                  w: World)
    returns (calls: seq<seq<Post>>, marked: seq<bool>)
    ensures var r := PollItems(PollStart(seen, titlesFail, log, w.norm), seen.Keys, items, threads, w);
      && log <= r.log && PollTold(seen, titlesFail, items, threads, w, r.log[|log|..], calls, marked)
      && TitlesTold(seen, titlesFail, items, marked, w, r.titles)
      && SeenTold(seen, titlesFail, items, w, marked, r.seen)
  {
    hide PollStart, PollItems, PollTold, TitlesTold, SeenTold;
    calls, marked := LoopTells(seen, titlesFail, log, items, threads, w);
  }

  /** A title posted in a poll is not posted again in it; and an unseen item with a new title is called for. */
  lemma TitlePostedOnce(seen: map<string, string>, items: seq<Item>, threads: seq<string>, w: World, made: seq<Post>,
                        calls: seq<seq<Post>>, marked: seq<bool>, j: nat)
    requires PollTold(seen, false, items, threads, w, made, calls, marked) && j < |items| && items[j].guid !in seen
    ensures calls[j] == [] || CallsFor(calls[j], items[j].guid, threads)
    ensures threads != [] ==> (calls[j] == [] <==>
      || (exists g :: g in seen && w.norm(seen[g]) == w.norm(items[j].title))
      || (exists i :: 0 <= i < j && AllAccepted(calls[i], threads) && calls[i] != [] && !w.insertFails(i)
            && w.norm(items[i].title) == w.norm(items[j].title)))
  {
    assert ItemTold(seen, false, items, threads, w, calls[j], marked, j);
    forall i | 0 <= i < j ensures marked[i] && threads != [] ==>
      AllAccepted(calls[i], threads) && calls[i] != [] && !w.insertFails(i)
      ensures AllAccepted(calls[i], threads) && calls[i] != [] && !w.insertFails(i) ==> marked[i]
    {
      assert ItemTold(seen, false, items, threads, w, calls[i], marked, i);
    }
  }
}
