/**
 The incremental model stg_events (dbt/models/staging/stg_events.sql): a run with no table yet,
 or a full refresh, rebuilds it from all of raw.events; any other run merges only the rows later
 than the newest one minus the late-arrival window.
 */
module StgEvents {
  import opened Common

  /** Primary key of both tables: the event id and its time in seconds. */
  datatype Key = Key(eventId: nat, at: int)

  /** `utm` and `props` are jsonb objects: the text of each key, None for a json null. */
  type Json = map<string, Option<string>>

  datatype Raw = Raw(session: string, name: string, path: Option<string>,
                     product: Option<int>, variant: Option<int>, cart: Option<int>,
                     device: Option<string>, browser: Option<string>, os: Option<string>,
                     country: Option<string>, referrer: Option<string>, utm: Option<Json>, version: Option<int>)

  datatype Staged = Staged(session: string, name: string, path: Option<string>,
                           product: Option<int>, variant: Option<int>, cart: Option<int>,
                           device: string, browser: string, os: string,
                           country: Option<string>, referrer: Option<string>,
                           utmSource: string, utmMedium: Option<string>, utmCampaign: Option<string>, version: int)

  /** The late-arrival window of dbt_project.yml, and the default lower bound, in seconds. */
  const WINDOW: int := 3 * 3600
  const YEAR_2000: int := 946684800

  function Coalesce<T>(x: Option<T>, default: T): T {
    if x.Some? then x.value else default
  }

  /** utm ->> key */
  function Text(utm: Option<Json>, key: string): Option<string> {
    if utm.Some? && key in utm.value then utm.value[key] else None
  }

  /** The projection of one row. */
  function Clean(r: Raw): Staged {
    Staged(r.session, r.name, if r.path == Some("") then None else r.path, r.product, r.variant, r.cart,
           Coalesce(r.device, "unknown"), Coalesce(r.browser, "unknown"), Coalesce(r.os, "unknown"),
           r.country, r.referrer,
           Coalesce(Text(r.utm, "source"), "direct"), Text(r.utm, "medium"), Text(r.utm, "campaign"),
           Coalesce(r.version, 1))
  }

  /** The text `x` if there is one, else `default`. */
  predicate Filled(x: Option<string>, default: string, y: string) {
    match x
    case Some(v) => y == v
    case None => y == default
  }

  /** The key is absent, null or in no object at all. */
  predicate Lacks(utm: Option<Json>, key: string) {
    utm.None? || key !in utm.value || utm.value[key].None?
  }

  /** Column by column, what the staged row of a raw row holds. */
  predicate Projects(r: Raw, y: Staged) {
    && y.session == r.session && y.name == r.name
    && (r.path == Some("") || r.path == None ==> y.path == None)
    && (r.path != Some("") ==> y.path == r.path)
    && y.product == r.product && y.variant == r.variant && y.cart == r.cart
    && Filled(r.device, "unknown", y.device) && Filled(r.browser, "unknown", y.browser) && Filled(r.os, "unknown", y.os)
    && y.country == r.country && y.referrer == r.referrer
    && (if Lacks(r.utm, "source") then y.utmSource == "direct" else Some(y.utmSource) == r.utm.value["source"])
    && (if Lacks(r.utm, "medium") then y.utmMedium == None else y.utmMedium == r.utm.value["medium"])
    && (if Lacks(r.utm, "campaign") then y.utmCampaign == None else y.utmCampaign == r.utm.value["campaign"])
    && (r.version == None ==> y.version == 1) && (r.version.Some? ==> Some(y.version) == r.version)
  }

  type RawTable = map<Key, Raw>
  type StgTable = map<Key, Staged>

  function Full(raw: RawTable): StgTable {
    map k | k in raw :: Clean(raw[k])
  }

  lemma {:induction false} LatestExists(keys: set<Key>)
    requires keys != {}
    ensures exists k :: k in keys && forall j :: j in keys ==> j.at <= k.at
    decreases |keys|
  {
    var k :| k in keys;
    if keys != {k} {
      var rest := keys - {k};
      assert rest != {};
      LatestExists(rest);
      var m :| m in rest && forall j :: j in rest ==> j.at <= m.at;
      var top := if k.at <= m.at then m else k;
      assert top in keys && forall j :: j in keys ==> j == k || j in rest;
    }
  }

  /** coalesce(max(occurred_at), '2000-01-01') */
  ghost function Newest(keys: set<Key>): (t: int)
    ensures forall k :: k in keys ==> k.at <= t
    ensures if keys == {} then t == YEAR_2000 else exists k :: k in keys && k.at == t
  {
    if keys == {} then YEAR_2000
    else
      LatestExists(keys);
      var k :| k in keys && forall j :: j in keys ==> j.at <= k.at;
      k.at
  }

  ghost function Cutoff(stg: StgTable): int {
    Newest(stg.Keys) - WINDOW
  }

  /** The incremental run: the selected rows replace or join those already there. */
  ghost function Merged(stg: StgTable, raw: RawTable): StgTable {
    stg + map k | k in raw && k.at > Cutoff(stg) :: Clean(raw[k])
  }

  /** `stg` is None until the first run creates the table. */
  datatype Sys = Sys(raw: RawTable, stg: Option<StgTable>)

  datatype Step = Arrive(key: Key, row: Raw) | Build(fullRefresh: bool)

  /** The loader never overwrites a row, so a key that is there already is left as it is. */
  ghost function Exec(s: Sys, step: Step): Sys {
    match step
    case Arrive(k, r) => if k in s.raw then s else s.(raw := s.raw[k := r])
    case Build(full) =>
      s.(stg := Some(if full || s.stg.None? then Full(s.raw) else Merged(s.stg.value, s.raw)))
  }

  ghost function Run(s: Sys, steps: seq<Step>): Sys
    decreases |steps|
  {
    if steps == [] then s else Run(Exec(s, steps[0]), steps[1..])
  }

  predicate Initial(s: Sys) {
    s.raw == map[] && s.stg.None?
  }

  /** Every staged row is the projection of its raw row. */
  predicate Sound(s: Sys) {
    s.stg.Some? ==> forall k :: k in s.stg.value ==> k in s.raw && s.stg.value[k] == Clean(s.raw[k])
  }

  predicate Complete(s: Sys) {
    s.stg == Some(Full(s.raw))
  }

  /** A row the next incremental run will not select although it is not staged. */
  ghost predicate Missed(s: Sys, k: Key) {
    s.stg.Some? && k in s.raw && k !in s.stg.value && k.at <= Cutoff(s.stg.value)
  }

  lemma {:induction false} StepKeepsSound(s: Sys, step: Step)
    requires Sound(s)
    ensures Sound(Exec(s, step))
  {}

  lemma {:induction false} RunKeepsSound(s: Sys, steps: seq<Step>)
    requires Sound(s)
    ensures Sound(Run(s, steps))
    decreases |steps|
  {
    if steps != [] {
      StepKeepsSound(s, steps[0]);
      RunKeepsSound(Exec(s, steps[0]), steps[1..]);
    }
  }

  /** The select leaves no choice: a row satisfies the column rules exactly when it is the projection. */
  lemma {:induction false} ProjectionIsUnique(r: Raw, y: Staged)
    ensures Projects(r, y) <==> y == Clean(r)
  {}

  /** Through any arrivals and runs, every staged row has its raw row's columns, each cleaned as the select says. */
  lemma {:induction false} StagedRowsAreProjections(s: Sys, steps: seq<Step>)
    requires Initial(s)
    ensures var t := Run(s, steps);
      t.stg.Some? ==> forall k :: k in t.stg.value ==> k in t.raw && Projects(t.raw[k], t.stg.value[k])
  {
    RunKeepsSound(s, steps);
    var t := Run(s, steps);
    if t.stg.Some? {
      forall k | k in t.stg.value
        ensures k in t.raw && Projects(t.raw[k], t.stg.value[k])
      {
        ProjectionIsUnique(t.raw[k], t.stg.value[k]);
      }
    }
  }

  /** Incremental equals full refresh exactly when no row is missed. */
  lemma {:induction false} IncrementalIsFullIff(s: Sys)
    requires Sound(s) && s.stg.Some?
    ensures Complete(Exec(s, Build(false))) <==> forall k :: k in s.raw ==> !Missed(s, k)
  {
    var stg, merged := s.stg.value, Merged(s.stg.value, s.raw);
    if forall k :: k in s.raw ==> !Missed(s, k) {
      assert merged.Keys == Full(s.raw).Keys;
      assert merged == Full(s.raw);
    } else {
      var k :| k in s.raw && Missed(s, k);
      assert k !in merged && k in Full(s.raw);
    }
  }

  lemma {:induction false} NewestGrows(a: set<Key>, b: set<Key>)
    requires a <= b && a != {}
    ensures Newest(a) <= Newest(b)
  {
    var k :| k in a && k.at == Newest(a);
    assert k in b;
  }

  lemma {:induction false} StepKeepsMissed(s: Sys, step: Step, k: Key)
    requires Sound(s) && Missed(s, k) && s.stg.value != map[] && step != Build(true)
    ensures Missed(Exec(s, step), k) && Exec(s, step).stg.value != map[]
  {
    if step == Build(false) {
      var merged := Merged(s.stg.value, s.raw);
      assert s.stg.value.Keys <= merged.Keys;
      NewestGrows(s.stg.value.Keys, merged.Keys);
    }
  }

  /** A missed row stays missed by every later incremental run, whatever else arrives ... */
  lemma {:induction false} MissedForever(s: Sys, steps: seq<Step>, k: Key)
    requires Sound(s) && Missed(s, k) && s.stg.value != map[]
    requires forall i :: 0 <= i < |steps| ==> steps[i] != Build(true)
    ensures Missed(Run(s, steps), k)
    decreases |steps|
  {
    if steps != [] {
      StepKeepsMissed(s, steps[0], k);
      StepKeepsSound(s, steps[0]);
      MissedForever(Exec(s, steps[0]), steps[1..], k);
    }
  }

  /** ... and a full refresh restores it, with everything else. */
  lemma {:induction false} FullRefreshRestores(s: Sys, steps: seq<Step>)
    ensures Complete(Run(s, steps + [Build(true)]))
    decreases |steps|
  {
    if steps == [] {
      assert Run(s, [Build(true)]) == Exec(s, Build(true));
    } else {
      assert (steps + [Build(true)])[1..] == steps[1..] + [Build(true)];
      FullRefreshRestores(Exec(s, steps[0]), steps[1..]);
    }
  }

  // ---------------------------------------------------------------- whole runs

  /** No incremental run of these steps finds a missed row. */
  ghost predicate InTime(s: Sys, steps: seq<Step>)
    decreases |steps|
  {
    steps != [] ==>
      && (steps[0] == Build(false) ==> forall k :: k in s.raw ==> !Missed(s, k))
      && InTime(Exec(s, steps[0]), steps[1..])
  }

  lemma {:induction false} MissedSpoils(s: Sys, steps: seq<Step>)
    requires Sound(s) && s.stg.Some? && s.stg.value != map[]
    requires forall i :: 0 <= i < |steps| ==> steps[i] != Build(true)
    ensures (exists k :: k in s.raw && Missed(s, k)) ==> !Complete(Run(s, steps))
  {
    if k :| k in s.raw && Missed(s, k) {
      MissedForever(s, steps, k);
      assert k in Full(Run(s, steps).raw);
    }
  }

  lemma {:induction false} OneRunIsFullIff(s: Sys)
    requires Sound(s) && s.stg.Some?
    ensures Complete(Run(s, [Build(false)])) <==> InTime(s, [Build(false)])
  {
    assert [Build(false)][1..] == [];
    assert Run(s, [Build(false)]) == Exec(s, Build(false));
    IncrementalIsFullIff(s);
  }

  lemma {:induction false} StaysNonempty(s: Sys, step: Step)
    requires s.stg.Some? && s.stg.value != map[] && step != Build(true)
    ensures Exec(s, step).stg.Some? && Exec(s, step).stg.value != map[]
  {
    assert s.stg.value.Keys <= Exec(s, step).stg.value.Keys;
  }

  /**
   From a nonempty table and through any arrivals and incremental runs, the table is
   complete after the last run exactly when every row arrived in time for the run that first
   saw it: nothing later makes up for one that did not.
   */
  lemma {:induction false} IncrementalRunsAreFullIff(s: Sys, steps: seq<Step>)
    requires Sound(s) && s.stg.Some? && s.stg.value != map[]
    requires forall i :: 0 <= i < |steps| ==> steps[i] != Build(true)
    requires steps != [] && steps[|steps| - 1] == Build(false)
    ensures Complete(Run(s, steps)) <==> InTime(s, steps)
    decreases |steps|
  {
    var t := Exec(s, steps[0]);
    StepKeepsSound(s, steps[0]);
    if |steps| == 1 {
      assert steps == [Build(false)];
      OneRunIsFullIff(s);
    } else {
      assert steps[1..][|steps| - 2] == Build(false);
      StaysNonempty(s, steps[0]);
      IncrementalRunsAreFullIff(t, steps[1..]);
      if steps[0] == Build(false) { MissedSpoils(s, steps); }
    }
  }

  /**
   The sufficient half needs no row to start from: whatever table there is or is not, and with full
   refreshes among the runs, rows that arrive in time leave the table complete after the last run.
   */
  lemma {:induction false} InTimeIsEnough(s: Sys, steps: seq<Step>)
    requires Sound(s) && steps != [] && steps[|steps| - 1].Build? && InTime(s, steps)
    ensures Complete(Run(s, steps))
    decreases |steps|
  {
    StepKeepsSound(s, steps[0]);
    if |steps| == 1 {
      assert steps == [steps[0]] && steps[1..] == [];
      assert Run(s, steps) == Exec(s, steps[0]);
      if s.stg.Some? && steps[0] == Build(false) { IncrementalIsFullIff(s); }
    } else {
      assert steps[1..][|steps| - 2] == steps[|steps| - 1];
      InTimeIsEnough(Exec(s, steps[0]), steps[1..]);
    }
  }

  /** Every arrival is younger than the newest raw row minus the window, and later than 2000. */
  ghost predicate BoundedLateness(s: Sys, steps: seq<Step>)
    decreases |steps|
  {
    steps != [] ==>
      && (steps[0].Arrive? ==> steps[0].key.at >= YEAR_2000 && steps[0].key.at > Newest(s.raw.Keys) - WINDOW)
      && BoundedLateness(Exec(s, steps[0]), steps[1..])
  }

  ghost predicate NothingMissed(s: Sys) {
    && Sound(s) && (forall k :: k in s.raw ==> k.at >= YEAR_2000)
    && forall k :: k in s.raw ==> !Missed(s, k)
  }

  lemma {:induction false} StepMissesNothing(s: Sys, step: Step)
    requires NothingMissed(s)
    requires step.Arrive? ==> step.key.at >= YEAR_2000 && step.key.at > Newest(s.raw.Keys) - WINDOW
    ensures NothingMissed(Exec(s, step)) && (step.Build? ==> Complete(Exec(s, step)))
  {
    var t := Exec(s, step);
    StepKeepsSound(s, step);
    if step.Build? {
      if s.stg.Some? && !step.fullRefresh { IncrementalIsFullIff(s); }
      assert forall k :: k in t.raw ==> k in t.stg.value;
    } else if s.stg.Some? {
      assert Newest(s.stg.value.Keys) <= Newest(s.raw.Keys) by {
        if s.stg.value.Keys != {} {
          assert s.stg.value.Keys <= s.raw.Keys;
          NewestGrows(s.stg.value.Keys, s.raw.Keys);
        } else if s.raw.Keys != {} {
          var k :| k in s.raw.Keys && k.at == Newest(s.raw.Keys);
        }
      }
    }
  }

  /**
   When no event reaches the landing zone more than the window after the newest one there, every
   run, first, incremental or full, leaves the table equal to a full refresh.
   */
  lemma {:induction false} BoundedLatenessIsEnough(s: Sys, steps: seq<Step>, last: Step)
    requires NothingMissed(s) && BoundedLateness(s, steps) && last.Build?
    ensures Complete(Exec(Run(s, steps), last))
    decreases |steps|
  {
    if steps == [] {
      StepMissesNothing(s, last);
    } else {
      StepMissesNothing(s, steps[0]);
      BoundedLatenessIsEnough(Exec(s, steps[0]), steps[1..], last);
    }
  }

  /** In particular from an empty warehouse on. */
  lemma {:induction false} FreshWarehouseIsComplete(s: Sys, steps: seq<Step>, last: Step)
    requires Initial(s) && BoundedLateness(s, steps) && last.Build?
    ensures Complete(Exec(Run(s, steps), last))
  {
    BoundedLatenessIsEnough(s, steps, last);
  }

  /** A table without rows selects from three hours before 2000-01-01 (UTC) on. */
  lemma {:induction false} EmptyTableSelectsSince2000(s: Sys, k: Key, r: Raw)
    requires s.stg == Some(map[]) && k !in s.raw
    ensures var t := Exec(Exec(s, Arrive(k, r)), Build(false));
      k in t.stg.value <==> k.at > 946684800 - 10800
  {
    assert s.stg.value.Keys == {};
    assert Cutoff(s.stg.value) == 946684800 - 10800;
  }

  /** The comparison is strict: a row exactly the window older than the newest is missed, one later is not. */
  lemma {:induction false} WindowIsOpen(s: Sys, k: Key, r: Raw)
    requires Sound(s) && s.stg.Some? && k !in s.raw
    ensures var t := Exec(s, Arrive(k, r));
      && (k.at == Newest(s.stg.value.Keys) - 10800 ==> Missed(t, k) && !Complete(Exec(t, Build(false))))
      && (k.at == Newest(s.stg.value.Keys) - 10799 ==>
            k in Exec(t, Build(false)).stg.value && Projects(r, Exec(t, Build(false)).stg.value[k]))
  {
    var t := Exec(s, Arrive(k, r));
    IncrementalIsFullIff(t);
  }
}
