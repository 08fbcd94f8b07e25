/** Runs of a site, from an empty catalog and an empty cache, in which a shared reader
    serves what it should not: the witnesses to the exact conditions of module Reader. */
module StaleReads {
  import opened Wrappers
  import opened Validation
  import opened Registry
  import opened Protocol
  import opened Importer
  import opened Maintenance
  import opened Runs
  import opened Races
  import opened Reader

  function Written(steps: seq<Step>): (events: seq<Event>)
    ensures |events| == |steps|
  {
    seq(|steps|, i requires 0 <= i < |steps| => Writer(steps[i]))
  }

  lemma {:induction false} RunWritten(w: Site, steps: seq<Step>)
    ensures Reader.Run(w, Written(steps)) == w.(world := Exec(w.world, steps), moment := w.moment + |steps|)
    decreases |steps|
  {
    hide Apply;
    if steps == [] {
      ExecNone(w.world);
    } else {
      var init, s := steps[..|steps| - 1], steps[|steps| - 1];
      RunWritten(w, init);
      assert Written(steps)[..|steps| - 1] == Written(init);
      ExecOne(w.world, init, s);
      assert init + [s] == steps;
    }
  }

  lemma RunCons(w: Site, e: Event, rest: seq<Event>)
    ensures Reader.Run(w, [e] + rest) == Reader.Run(Next(w, e), rest)
  {
    hide Next, Reader.Run;
    RunAppend(w, [e], rest);
    OneEvent(w, e);
  }

  /** The release has been imported and activated, and nobody has read anything. */
  const PRELUDE := IMPORT + ACTIVATE

  function Quiet(ttl: real): Site {
    Site(StarWorld(Active), map[], map[], 0.0, ttl, |PRELUDE|)
  }

  lemma PreludeRun(ttl: real)
    ensures Reader.Run(Opening(ttl), Written(PRELUDE)) == Quiet(ttl)
  {
    hide Exec, Reader.Run, StarWorld;
    RunWritten(Opening(ttl), PRELUDE);
    ImportSucceeds();
    ExecAppend(GENESIS, IMPORT, ACTIVATE);
    StarIsActive();
  }

  /** A thread reads the registry for its family. */
  function Reading(slug: string): seq<Event> {
    [Ask(0, slug, None), ReadCache(0, false), Resolve(0, Some(1))]
  }

  function Answer(slug: string): Resolved {
    Resolved(slug, "vsx_source", 1, "current", Active)
  }

  function Holds(w: Site, slug: string): Site {
    w.(queries := map[0 := Fetched(slug, Answer(slug), w.moment + 2)], moment := w.moment + 3)
  }

  lemma Spellings()
    ensures FamilyOf("vsx") == FamilyOf("VSX") == Some(Vsx)
    ensures DataTable(Vsx) == "vsx_source"
  {
    assert Lower("VSX") == "vsx" == Lower("vsx");
  }

  lemma ReadingRun(ttl: real, slug: string)
    requires slug == "vsx" || slug == "VSX"
    ensures Reader.Run(Quiet(ttl), Reading(slug)) == Holds(Quiet(ttl), slug)
  {
    Spellings();
    hide StatusOf, Stage, Exec, FamilyOf, Lower, DataTable;
    var w := Quiet(ttl);
    var w1 := Next(w, Ask(0, slug, None));
    assert w1 == w.(queries := map[0 := Asked(slug, None)], moment := w.moment + 1);
    var w2 := Next(w1, ReadCache(0, false));
    assert w2 == w.(queries := map[0 := Missed(slug)], moment := w.moment + 2);
    var releases := w.world.store.releases;
    assert IsCurrent(releases, Vsx, Some(1));
    assert ResolveForQuery(w.world.store, slug, None, Some(1)) == Ok(Answer(slug));
    var w3 := Next(w2, Resolve(0, Some(1)));
    assert w3 == Holds(w, slug);
    assert Reading(slug) == [Ask(0, slug, None)] + ([ReadCache(0, false)] + [Resolve(0, Some(1))]);
    RunCons(w, Ask(0, slug, None), [ReadCache(0, false)] + [Resolve(0, Some(1))]);
    RunCons(w1, ReadCache(0, false), [Resolve(0, Some(1))]);
    OneEvent(w2, Resolve(0, Some(1)));
  }

  /** The prelude, the read, and then `more`. */
  function Story(slug: string, more: seq<Event>): seq<Event> {
    Written(PRELUDE) + Reading(slug) + more
  }

  lemma StoryRun(ttl: real, slug: string, more: seq<Event>)
    requires slug == "vsx" || slug == "VSX"
    ensures Reader.Run(Opening(ttl), Story(slug, more)) == Reader.Run(Holds(Quiet(ttl), slug), more)
  {
    hide Reader.Run, Holds, Quiet;
    PreludeRun(ttl);
    ReadingRun(ttl, slug);
    RunAppend(Opening(ttl), Written(PRELUDE), Reading(slug));
    RunAppend(Opening(ttl), Written(PRELUDE) + Reading(slug), more);
  }

  /** The release is deactivated while the thread waits. */
  function Deactivated(w: Site): Site {
    w.(world := StarWorld(Superseded), moment := w.moment + 2)
  }

  lemma DeactivateEvents(w: Site, more: seq<Event>)
    requires w.world == StarWorld(Active)
    ensures Reader.Run(w, Written(DEACTIVATE) + more) == Reader.Run(Deactivated(w), more)
  {
    hide Exec, Reader.Run, StarWorld;
    RunAppend(w, Written(DEACTIVATE), more);
    RunWritten(w, DEACTIVATE);
    StarIsSuperseded();
  }

  lemma StarIsSuperseded()
    ensures Exec(StarWorld(Active), DEACTIVATE) == StarWorld(Superseded)
  {
    hide Exec, StatusOf, Stage;
    UploadedStar(StarWorld(Active), Active);
    DeactivateOver(StarWorld(Active));
  }

  lemma NotHeld(slug: string)
    ensures !HeldActive(StarWorld(Superseded).store, Answer(slug))
  {
    hide StatusOf, Stage;
  }

  /******* An invalidation undone *******/

  const UNDONE := Written(DEACTIVATE) + ([Invalidate(Some("vsx"))] + [Publish(0)])

  /** The thread reads, the release is deactivated, the operator invalidates, the thread
      writes: the cache serves a release the registry no longer holds as active. */
  lemma InvalidationUndone(ttl: real)
    ensures var v := Reader.Run(Opening(ttl), Story("vsx", UNDONE));
            && "vsx" in v.cache
            && v.cache["vsx"].resolved == Answer("vsx")
            && !HeldActive(v.world.store, Answer("vsx"))
  {
    hide Reader.Run, Quiet, StarWorld, HeldActive;
    StoryRun(ttl, "vsx", UNDONE);
    var w := Holds(Quiet(ttl), "vsx");
    QuietWorld(ttl);
    DeactivateEvents(w, [Invalidate(Some("vsx"))] + [Publish(0)]);
    var w1 := Deactivated(w);
    RunCons(w1, Invalidate(Some("vsx")), [Publish(0)]);
    OneEvent(Next(w1, Invalidate(Some("vsx"))), Publish(0));
    NotHeld("vsx");
  }

  lemma QuietWorld(ttl: real)
    ensures Quiet(ttl).world == StarWorld(Active) && Quiet(ttl).cache == map[] && Quiet(ttl).now == 0.0 && Quiet(ttl).ttl == ttl
  {
  }

  /******* An old answer a TTL later *******/

  function Late(ttl: real): seq<Event> {
    Written(DEACTIVATE) + ([Tick(ttl)] + ([Publish(0)] + ([Ask(1, "vsx", None)] + [ReadCache(1, false)])))
  }

  /** The thread takes a whole TTL between its read and its write; a query that comes
      then is given the release deactivated a TTL before. */
  lemma OldAnswerServedLate(ttl: real)
    requires ttl > 0.0
    ensures var v := Reader.Run(Opening(ttl), Story("vsx", Late(ttl)));
            && v.now == ttl
            && 1 in v.queries && v.queries[1] == Holding("vsx", None, Answer("vsx"))
            && !HeldActive(v.world.store, Answer("vsx"))
  {
    hide Reader.Run, Quiet, StarWorld, HeldActive;
    StoryRun(ttl, "vsx", Late(ttl));
    var w := Holds(Quiet(ttl), "vsx");
    QuietWorld(ttl);
    DeactivateEvents(w, [Tick(ttl)] + ([Publish(0)] + ([Ask(1, "vsx", None)] + [ReadCache(1, false)])));
    var w1 := Deactivated(w);
    var w2 := Next(w1, Tick(ttl));
    var w3 := Next(w2, Publish(0));
    var w4 := Next(w3, Ask(1, "vsx", None));
    RunCons(w1, Tick(ttl), [Publish(0)] + ([Ask(1, "vsx", None)] + [ReadCache(1, false)]));
    RunCons(w2, Publish(0), [Ask(1, "vsx", None)] + [ReadCache(1, false)]);
    RunCons(w3, Ask(1, "vsx", None), [ReadCache(1, false)]);
    OneEvent(w4, ReadCache(1, false));
    NotHeld("vsx");
  }

  /******* An invalidation under another spelling *******/

  const ELSEWHERE :=
    [Publish(0)] + (Written(DEACTIVATE) + ([Invalidate(Some("vsx"))] + ([Ask(1, "VSX", None)] + [ReadCache(1, false)])))

  /** Cached under "VSX", invalidated as "vsx": the next query for "VSX" still hits. */
  lemma InvalidationMissesSpelling(ttl: real)
    requires ttl > 0.0
    ensures var v := Reader.Run(Opening(ttl), Story("VSX", ELSEWHERE));
            && 1 in v.queries && v.queries[1] == Holding("VSX", None, Answer("VSX"))
            && !HeldActive(v.world.store, Answer("VSX"))
  {
    hide Reader.Run, Quiet, StarWorld, HeldActive;
    StoryRun(ttl, "VSX", ELSEWHERE);
    var w := Holds(Quiet(ttl), "VSX");
    QuietWorld(ttl);
    var rest := [Invalidate(Some("vsx"))] + ([Ask(1, "VSX", None)] + [ReadCache(1, false)]);
    RunCons(w, Publish(0), Written(DEACTIVATE) + rest);
    var w1 := Next(w, Publish(0));
    DeactivateEvents(w1, rest);
    var w2 := Deactivated(w1);
    var w3 := Next(w2, Invalidate(Some("vsx")));
    var w4 := Next(w3, Ask(1, "VSX", None));
    assert "VSX"[0] != "vsx"[0];
    RunCons(w2, Invalidate(Some("vsx")), [Ask(1, "VSX", None)] + [ReadCache(1, false)]);
    RunCons(w3, Ask(1, "VSX", None), [ReadCache(1, false)]);
    OneEvent(w4, ReadCache(1, false));
    NotHeld("VSX");
  }

  /******* An empty answer *******/

  const DROP := [OpenRemoval(3, 1, true), DropTable(3)]
  const MIDWAY := [Publish(0)] + (Written(DROP) + ([Verify(0)] + [Select(0)]))

  lemma DropRun()
    ensures var w := Exec(StarWorld(Active), DROP);
            && w.store.releases == StarWorld(Active).store.releases
            && w.store.tables == map[] && w.store.attached == {}
  {
    hide StatusOf, Stage;
    ExecTwo(StarWorld(Active), DROP[0], DROP[1]);
  }

  lemma StillHeld(store: Store)
    requires store.releases == StarWorld(Active).store.releases
    ensures Recheck(store, Answer("vsx"), true) == Ok(Answer("vsx"))
    ensures store.attached == {} ==> ParentRows(store, Answer("vsx")) == []
  {
    hide StatusOf, Stage;
    Spellings();
  }

  /** Between the two transactions of a forced removal the row is still ACTIVE: the
      recheck passes, and the SELECT answers nothing where the documentation promises
      an error. */
  lemma RemovalMidwayAnswersEmpty(ttl: real)
    ensures var v := Reader.Run(Opening(ttl), Story("vsx", MIDWAY));
            0 in v.queries && v.queries[0].Answered? && v.queries[0].reference.None? && v.queries[0].rows == []
  {
    hide Reader.Run, Quiet, StarWorld, Exec, Recheck, ParentRows;
    StoryRun(ttl, "vsx", MIDWAY);
    var w := Holds(Quiet(ttl), "vsx");
    QuietWorld(ttl);
    var w1 := Next(w, Publish(0));
    RunCons(w, Publish(0), Written(DROP) + ([Verify(0)] + [Select(0)]));
    RunAppend(w1, Written(DROP), [Verify(0)] + [Select(0)]);
    RunWritten(w1, DROP);
    DropRun();
    var w2 := Reader.Run(w1, Written(DROP));
    StillHeld(w2.world.store);
    RunCons(w2, Verify(0), [Select(0)]);
    OneEvent(Next(w2, Verify(0)), Select(0));
  }
}
