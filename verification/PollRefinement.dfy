/** The poller's moves in the system of FanOut, taken together, are the loop of pollFreeGames. */
module PollRefinement {
  import opened Text
  import opened NotificationQueue
  import opened PendingDrain
  import opened FreeGames
  import opened FanOut

  // ---------------------------------------------------------------- the poller's moves are the poller's loop

  /** This move asks the database to mark item i. */
  predicate Inserts(env: Env, y: System, m: Move) {
    || m.Marks?
    || (m.Looks? && y.poll.Some? && y.poll.value.i < |y.poll.value.items|
        && y.poll.value.items[y.poll.value.i].guid !in y.poll.value.known
        && y.poll.value.titles.Some? && env.norm(y.poll.value.items[y.poll.value.i].title) in y.poll.value.titles.value)
  }

  predicate EndsCall(m: Move) {
    m.CallLost? || m.Hears? || m.AnswerLost?
  }

  /** The world of the poller's loop has for this move the outcome the system had. */
  ghost predicate Agrees(env: Env, w: World, y: System, m: Move)
    requires CanMove(y, m)
  {
    && w.norm == env.norm
    && (Inserts(env, y, m) ==> w.insertFails(y.poll.value.i) == m.insertFails)
    && (EndsCall(m) ==> w.posts(|y.posts|) == (m.Hears? && Success(y.answers[y.poll.value.at.h])))
  }

  /** The poll has got as far as the loop over the items before number i, and inside item i as far as its calls before
      thread j. */
  ghost predicate OnTrack(p0: Poller, w: World, y: System) {
    && y.poll.Some? && y.poll.value.i <= |y.poll.value.items|
    && var p := y.poll.value;
       var r := PollItems(p0, p.known, p.items[..p.i], p.threads, w);
       && p.titles == r.titles && y.seen == r.seen
       && (p.at.Look? ==> y.posts == r.log)
       && (!p.at.Look? ==> OnTrackWithin(r, w, y))
  }

  ghost predicate OnTrackWithin(r: Poller, w: World, y: System)
    requires y.poll.Some?
  {
    var p := y.poll.value;
    && WithinItem(p) && (p.at.Mark? ==> p.j == |p.threads|)
    && p.items[p.i].guid !in p.known
    && (r.titles.Some? ==> w.norm(p.items[p.i].title) !in r.titles.value)
    && PostAll(y.posts, p.items[p.i].guid, p.threads[p.j..], w) == PostAll(r.log, p.items[p.i].guid, p.threads, w)
  }

  lemma PollItemsNext(p0: Poller, known: set<string>, items: seq<Item>, i: nat, threads: seq<string>, w: World)
    requires i < |items|
    ensures PollItems(p0, known, items[..i + 1], threads, w) ==
      PollItem(PollItems(p0, known, items[..i], threads, w), known, items[i], i, threads, w)
  {
    assert items[..i + 1][..i] == items[..i];
  }

  lemma LooksOnTrack(env: Env, p0: Poller, w: World, y: System, insertFails: bool)
    requires OnTrack(p0, w, y) && CanMove(y, Looks(insertFails)) && Agrees(env, w, y, Looks(insertFails))
    ensures OnTrack(p0, w, Moved(env, y, Looks(insertFails)))
  {
    hide PollItems, PostAll, InsertSeen;
    var p := y.poll.value;
    PollItemsNext(p0, p.known, p.items, p.i, p.threads, w);
    assert p.threads[0..] == p.threads;
  }

  lemma CallEndsOnTrack(env: Env, p0: Poller, w: World, y: System, m: Move)
    requires OnTrack(p0, w, y) && CanMove(y, m) && EndsCall(m) && Agrees(env, w, y, m)
    ensures OnTrack(p0, w, Moved(env, y, m))
  {
    hide PollItems, InsertSeen, Success;
    var p := y.poll.value;
    PollItemsNext(p0, p.known, p.items, p.i, p.threads, w);
    assert p.threads[p.j..][1..] == p.threads[p.j + 1..];
  }

  lemma MarksOnTrack(env: Env, p0: Poller, w: World, y: System, insertFails: bool)
    requires OnTrack(p0, w, y) && CanMove(y, Marks(insertFails)) && Agrees(env, w, y, Marks(insertFails))
    ensures OnTrack(p0, w, Moved(env, y, Marks(insertFails)))
  {
    hide PollItems, InsertSeen;
    var p := y.poll.value;
    PollItemsNext(p0, p.known, p.items, p.i, p.threads, w);
  }

  /** The moves that do not touch what the poller has done. */
  lemma OthersOnTrack(env: Env, p0: Poller, w: World, y: System, m: Move)
    requires OnTrack(p0, w, y) && CanMove(y, m) && (m.Bridge? || m.Ask? || m.Calls?)
    ensures OnTrack(p0, w, Moved(env, y, m))
  {
    hide PollItems, PostAll, Apply, Enabled, StepAnswer, RowOf, TrimSpace;
  }

  lemma StaysOnTrack(env: Env, p0: Poller, w: World, y: System, m: Move)
    requires OnTrack(p0, w, y) && CanMove(y, m) && Agrees(env, w, y, m) && !m.StartPoll? && !m.StopPoll?
    ensures OnTrack(p0, w, Moved(env, y, m))
  {
    hide OnTrack, Agrees, Apply, Enabled, StepAnswer, RowOf, TrimSpace, InsertSeen, Success;
    if m.Looks? {
      LooksOnTrack(env, p0, w, y, m.insertFails);
    } else if m.Marks? {
      MarksOnTrack(env, p0, w, y, m.insertFails);
    } else if EndsCall(m) {
      CallEndsOnTrack(env, p0, w, y, m);
    } else {
      OthersOnTrack(env, p0, w, y, m);
    }
  }

  predicate SamePoll(y: System, y': System) {
    && y.poll.Some? && y'.poll.Some?
    && y'.poll.value.items == y.poll.value.items && y'.poll.value.threads == y.poll.value.threads
    && y'.poll.value.known == y.poll.value.known
    && y.posts <= y'.posts && y.poll.value.i <= y'.poll.value.i
  }

  /** Moves a to b belong to the poll that move a starts. */
  ghost predicate OnePoll(env: Env, ys: seq<System>, moves: seq<Move>, a: nat, b: nat) {
    && SystemRun(env, ys, moves) && a < b < |ys| && moves[a].StartPoll?
    && forall k :: a < k < b ==> !moves[k].StartPoll? && !moves[k].StopPoll?
  }

  lemma StartsOnTrack(env: Env, w: World, y: System, m: Move)
    requires CanMove(y, m) && m.StartPoll?
    ensures var y' := Moved(env, y, m);
      && OnTrack(PollStart(y.seen, m.titlesFail, y.posts, env.norm), w, y') && y'.poll.Some?
      && y'.poll.value.items == m.items && y'.poll.value.threads == m.threads && y'.poll.value.known == y.seen.Keys
  {
    hide TrimSpace;
  }

  lemma {:induction false} PollOnTrack(env: Env, w: World, ys: seq<System>, moves: seq<Move>, a: nat, b: nat)
    requires OnePoll(env, ys, moves, a, b)
    requires forall k :: a <= k < b ==> Agrees(env, w, ys[k], moves[k])
    ensures OnTrack(PollStart(ys[a].seen, moves[a].titlesFail, ys[a].posts, env.norm), w, ys[b])
    decreases b
  {
    hide OnTrack, Agrees, Starts, CanMove, Moved, SamePoll;
    if b == a + 1 {
      StartsOnTrack(env, w, ys[a], moves[a]);
    } else {
      PollOnTrack(env, w, ys, moves, a, b - 1);
      StaysOnTrack(env, PollStart(ys[a].seen, moves[a].titlesFail, ys[a].posts, env.norm), w, ys[b - 1], moves[b - 1]);
    }
  }

  lemma SamePollMove(env: Env, y: System, m: Move)
    requires CanMove(y, m) && !m.StartPoll? && !m.StopPoll? && y.poll.Some?
    ensures SamePoll(y, Moved(env, y, m))
    ensures EndsCall(m) ==>
      var item, thread := y.poll.value.items[y.poll.value.i], y.poll.value.threads[y.poll.value.j];
      Moved(env, y, m).posts == y.posts + [Post(item.guid, thread, m.Hears? && Success(y.answers[y.poll.value.at.h]))]
    ensures Inserts(env, y, m) ==> Moved(env, y, m).poll.value.i == y.poll.value.i + 1
  {
    hide Apply, Enabled, StepAnswer, RowOf, TrimSpace, InsertSeen, Success;
  }

  lemma {:induction false} SamePollAlong(env: Env, ys: seq<System>, moves: seq<Move>, a: nat, b: nat, c: nat)
    requires OnePoll(env, ys, moves, a, b) && a < c <= b
    ensures ys[c].poll.Some? && SamePoll(ys[c], ys[b])
    decreases b
  {
    hide Starts, CanMove, Moved, SamePoll;
    if c < b {
      SamePollAlong(env, ys, moves, a, b - 1, c);
      assert CanMove(ys[b - 1], moves[b - 1]);
      SamePollTrans(env, ys[c], ys[b - 1], moves[b - 1]);
    } else if a + 1 < b {
      SamePollAlong(env, ys, moves, a, b - 1, b - 1);
      assert CanMove(ys[b - 1], moves[b - 1]);
      SamePollTrans(env, ys[b - 1], ys[b - 1], moves[b - 1]);
    } else {
      StartPolls(env, ys[a], moves[a]);
    }
  }

  lemma SamePollTrans(env: Env, x: System, y: System, m: Move)
    requires SamePoll(x, y) && CanMove(y, m) && !m.StartPoll? && !m.StopPoll?
    ensures SamePoll(x, Moved(env, y, m)) && SamePoll(Moved(env, y, m), Moved(env, y, m)) && Moved(env, y, m).poll.Some?
  {
    hide CanMove, Moved;
    SamePollMove(env, y, m);
  }

  lemma StartPolls(env: Env, y: System, m: Move)
    requires CanMove(y, m) && m.StartPoll?
    ensures var y' := Moved(env, y, m); y'.poll.Some? && SamePoll(y', y')
    ensures var y' := Moved(env, y, m);
      y'.poll.value.items == m.items && y'.poll.value.threads == m.threads && y'.poll.value.known == y.seen.Keys
  {
    hide TrimSpace;
  }

  /** Move k of the poll asked the database to mark item i, and failed. */
  ghost predicate FailedInsert(env: Env, ys: seq<System>, moves: seq<Move>, k: nat, i: nat)
    requires k < |moves| && k < |ys|
  {
    Inserts(env, ys[k], moves[k]) && ys[k].poll.Some? && ys[k].poll.value.i == i && moves[k].insertFails
  }

  /** The outcomes the poll had, as a world for the loop. */
  ghost function WorldOf(env: Env, ys: seq<System>, moves: seq<Move>, a: nat, b: nat): World
    requires OnePoll(env, ys, moves, a, b)
  {
    World(env.norm, (n: nat) => n < |ys[b].posts| && ys[b].posts[n].ok,
          (i: nat) => exists k: nat :: a < k < b && FailedInsert(env, ys, moves, k, i))
  }

  lemma WorldAgrees(env: Env, ys: seq<System>, moves: seq<Move>, a: nat, b: nat, k: nat)
    requires OnePoll(env, ys, moves, a, b) && a <= k < b
    ensures Agrees(env, WorldOf(env, ys, moves, a, b), ys[k], moves[k])
  {
    hide Starts, CanMove, Moved, Success, Inserts, EndsCall;
    var y, m, w := ys[k], moves[k], WorldOf(env, ys, moves, a, b);
    assert CanMove(y, m);
    if k == a {
      StartEndsNothing(env, y, m);
    } else {
      SamePollAlong(env, ys, moves, a, b, k);
      SamePollAlong(env, ys, moves, a, b, k + 1);
      SamePollMove(env, y, m);
      if Inserts(env, y, m) {
        InsertHas(env, y, m);
        forall l | a < l < b && FailedInsert(env, ys, moves, l, y.poll.value.i) ensures l == k {
          InsertedOnce(env, ys, moves, a, b, k, l);
        }
        assert w.insertFails(y.poll.value.i) <==> FailedInsert(env, ys, moves, k, y.poll.value.i);
      }
    }
  }

  lemma StartEndsNothing(env: Env, y: System, m: Move)
    requires m.StartPoll?
    ensures !Inserts(env, y, m) && !EndsCall(m)
  {
  }

  lemma InsertHas(env: Env, y: System, m: Move)
    requires Inserts(env, y, m)
    ensures m.Marks? || m.Looks?
  {
  }

  /** Two moves that ask to mark the same item are one. */
  lemma InsertedOnce(env: Env, ys: seq<System>, moves: seq<Move>, a: nat, b: nat, k: nat, l: nat)
    requires OnePoll(env, ys, moves, a, b) && a < k < b && a < l < b
    requires Inserts(env, ys[k], moves[k]) && Inserts(env, ys[l], moves[l])
    requires ys[k].poll.Some? && ys[l].poll.Some? && ys[k].poll.value.i == ys[l].poll.value.i
    ensures k == l
  {
    hide Starts, CanMove, Moved, Inserts, Success;
    if k < l {
      InsertedBefore(env, ys, moves, a, b, k, l);
    } else if l < k {
      InsertedBefore(env, ys, moves, a, b, l, k);
    }
  }

  lemma InsertedBefore(env: Env, ys: seq<System>, moves: seq<Move>, a: nat, b: nat, k: nat, l: nat)
    requires OnePoll(env, ys, moves, a, b) && a < k < l < b
    requires Inserts(env, ys[k], moves[k]) && ys[k].poll.Some? && ys[l].poll.Some?
    ensures ys[k].poll.value.i < ys[l].poll.value.i
  {
    hide Starts, CanMove, Moved, Inserts, Success;
    assert CanMove(ys[k], moves[k]);
    SamePollMove(env, ys[k], moves[k]);
    assert OnePoll(env, ys, moves, a, l);
    SamePollAlong(env, ys, moves, a, l, k + 1);
  }

  /** A poll that gets to the end of its items has done, whatever else went on in between, what the loop of
      pollFreeGames does with the outcomes its calls and inserts had. */
  lemma PollIsTheLoop(env: Env, ys: seq<System>, moves: seq<Move>, a: nat, b: nat)
    requires OnePoll(env, ys, moves, a, b)
    requires PollAt(ys[b], Look) && ys[b].poll.value.i == |ys[b].poll.value.items|
    ensures var w := WorldOf(env, ys, moves, a, b);
      && (forall k :: a <= k < b ==> Agrees(env, w, ys[k], moves[k]))
      && var r := PollItems(PollStart(ys[a].seen, moves[a].titlesFail, ys[a].posts, env.norm), ys[a].seen.Keys,
                            moves[a].items, moves[a].threads, w);
         ys[b].seen == r.seen && ys[b].posts == r.log
  {
    hide Starts, CanMove, Moved, Agrees, PollItems;
    var w := WorldOf(env, ys, moves, a, b);
    forall k | a <= k < b ensures Agrees(env, w, ys[k], moves[k]) {
      WorldAgrees(env, ys, moves, a, b, k);
    }
    PollOnTrack(env, w, ys, moves, a, b);
    SamePollAlong(env, ys, moves, a, b, a + 1);
    assert CanMove(ys[a], moves[a]);
    StartPolls(env, ys[a], moves[a]);
    var p := ys[b].poll.value;
    assert p.items[..p.i] == moves[a].items;
  }

  /** So a finished poll called for exactly the new items, and wrote down what it was to write down. */
  lemma FinishedPollTells(env: Env, ys: seq<System>, moves: seq<Move>, a: nat, b: nat)
    returns (calls: seq<seq<Post>>, marked: seq<bool>)
    requires OnePoll(env, ys, moves, a, b)
    requires PollAt(ys[b], Look) && ys[b].poll.value.i == |ys[b].poll.value.items|
    ensures var w, m := WorldOf(env, ys, moves, a, b), moves[a];
      && m.StartPoll? && ys[a].posts <= ys[b].posts
      && PollTold(ys[a].seen, m.titlesFail, m.items, m.threads, w, ys[b].posts[|ys[a].posts|..], calls, marked)
      && SeenTold(ys[a].seen, m.titlesFail, m.items, w, marked, ys[b].seen)
  {
    hide Starts, CanMove, Moved, Agrees, PollItems, PollTold, SeenTold, TitlesTold;
    PollIsTheLoop(env, ys, moves, a, b);
    var m := moves[a];
    calls, marked := PollTells(ys[a].seen, m.titlesFail, ys[a].posts, m.items, m.threads,
                               WorldOf(env, ys, moves, a, b));
  }
}
