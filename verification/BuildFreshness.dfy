/** When the supervisor embeds a stale service: the build steps of scripts/arm_build.py, cargo's
    caching of variants, and the order check of scripts/embed_order_check.py. */
module BuildFreshness {
  import opened Text

  type Service = string

  /** What a build produces: which variant, from which state of the sources. */
  datatype Binary = Binary(variant: nat, version: nat)

  datatype File = File(content: Binary, mtime: nat)

  /** A supervisor binary: the source it was built from, the services inside it, its time. */
  datatype Supervisor = Supervisor(version: nat, embedded: map<Service, Binary>, mtime: nat)

  /** The target directory and what cargo keeps beside it. */
  datatype World = World(
    clock: nat,
    source: map<Service, nat>,
    place: map<Service, File>,
    kept: map<(Service, nat), File>,
    supervisorSource: nat,
    keptSupervisors: map<nat, Supervisor>,
    supervisor: Option<nat>,          // the variant in place
    due: set<Service>)                // built in two variants and not stamped since

  /** The services, and those of them that are built in two variants (`dwc2` and `fs`). */
  datatype Plan = Plan(services: set<Service>, stamped: set<Service>)

  function Version(w: World, s: Service): nat { if s in w.source then w.source[s] else 0 }

  function Wanted(w: World, s: Service, v: nat): Binary { Binary(v, Version(w, s)) }

  /** A step that can write a file says when. */
  datatype Step =
    | Edit(s: Service)
    | EditSupervisor
    | Cargo(s: Service, v: nat, at: nat)
    | Touch(s: Service, at: nat)
    | CargoSupervisor(v: nat, at: nat)

  /** A service without variants is only ever built one way; only a file that exists is stamped; time does not
      run backwards, and need not move. */
  predicate Allowed(p: Plan, w: World, e: Step) {
    match e
    case Cargo(s, v, at) => s in p.services && (s !in p.stamped ==> v == 0) && at >= w.clock
    case Touch(s, at) => s in p.services && s in w.place && at >= w.clock
    case CargoSupervisor(_, at) => at >= w.clock
    case _ => true
  }

  predicate UpToDate(w: World, s: Service, v: nat) {
    (s, v) in w.kept && w.kept[(s, v)].content == Wanted(w, s, v)
  }

  /** `cargo build -p s`: up to date means copied back into place with its old time, if it is not
      there already; otherwise it is compiled now. */
  function AfterCargo(p: Plan, w: World, s: Service, v: nat, at: nat): World {
    var want := Wanted(w, s, v);
    var due := if s in p.stamped then w.due + {s} else w.due;
    if UpToDate(w, s, v) then
      if s in w.place && w.place[s].content == want then w.(clock := at, due := due)
      else w.(clock := at, place := w.place[s := w.kept[(s, v)]], due := due)
    else
      var f := File(want, at);
      w.(clock := at, place := w.place[s := f], kept := w.kept[(s, v) := f], due := due)
  }

  /** `os.utime(path, None)` */
  function AfterTouch(w: World, s: Service, at: nat): World
    requires s in w.place
  {
    w.(clock := at, place := w.place[s := File(w.place[s].content, at)], due := w.due - {s})
  }

  /** No service in place is newer than this time: what `rerun-if-changed` and the order check ask. */
  predicate NothingNewer(p: Plan, w: World, time: nat) {
    forall s :: s in p.services && s in w.place ==> w.place[s].mtime <= time
  }

  /** `cargo build -p supervisor`: rebuilt, and everything embedded afresh, when its source moved or
      a service is newer than the build kept for this variant. */
  function AfterCargoSupervisor(p: Plan, w: World, v: nat, at: nat): World {
    if v in w.keptSupervisors && w.keptSupervisors[v].version == w.supervisorSource
       && NothingNewer(p, w, w.keptSupervisors[v].mtime)
    then w.(clock := at, supervisor := Some(v))
    else
      var inside := map s | s in w.place && s in p.services :: w.place[s].content;
      w.(clock := at, supervisor := Some(v),
         keptSupervisors := w.keptSupervisors[v := Supervisor(w.supervisorSource, inside, at)])
  }

  function After(p: Plan, w: World, e: Step): World
    requires Allowed(p, w, e)
  {
    match e
    case Edit(s) => w.(source := w.source[s := Version(w, s) + 1])
    case EditSupervisor => w.(supervisorSource := w.supervisorSource + 1)
    case Cargo(s, v, at) => AfterCargo(p, w, s, v, at)
    case Touch(s, at) => AfterTouch(w, s, at)
    case CargoSupervisor(v, at) => AfterCargoSupervisor(p, w, v, at)
  }

  /** The supervisor in place. */
  function InPlace(w: World): (r: Option<Supervisor>) {
    if w.supervisor.Some? && w.supervisor.value in w.keptSupervisors then Some(w.keptSupervisors[w.supervisor.value])
    else None
  }

  /** `enforce`: the services the supervisor in place is older than, or `None` without one. */
  method Enforce(p: Plan, w: World, order: seq<Service>) returns (stale: Option<seq<Service>>)
    ensures stale.None? <==> InPlace(w).None?
    ensures stale.Some? ==> forall s :: s in stale.value <==>
              s in order && s in w.place && w.place[s].mtime > InPlace(w).value.mtime
    ensures (forall s :: s in order <==> s in p.services) ==> (stale == Some([]) <==> CheckPasses(p, w))
  {
    var sup := InPlace(w);
    if sup.None? { return None; }
    var late: seq<Service> := [];
    for i := 0 to |order|
      invariant forall s :: s in late <==> s in order[..i] && s in w.place && w.place[s].mtime > sup.value.mtime
    {
      var s := order[i];
      assert order[..i + 1] == order[..i] + [s];
      if s in w.place && w.place[s].mtime > sup.value.mtime { late := late + [s]; }
    }
    assert order[..|order|] == order;
    stale := Some(late);
    if late != [] { assert late[0] in late; }
  }

  predicate CheckPasses(p: Plan, w: World) {
    InPlace(w).Some? && NothingNewer(p, w, InPlace(w).value.mtime)
  }

  /** Every service on disk is the one inside the supervisor in place. */
  predicate EmbedsWhatIsBuilt(p: Plan, w: World) {
    InPlace(w).Some? && forall s :: s in p.services && s in w.place ==>
      s in InPlace(w).value.embedded && InPlace(w).value.embedded[s] == w.place[s].content
  }

  /** With no stamp due, a passing check means what it says. */
  predicate CheckIsTrue(p: Plan, w: World) { w.due == {} && CheckPasses(p, w) ==> EmbedsWhatIsBuilt(p, w) }

  /** What every step keeps. The fourth clause is the point: a service that is not awaiting its
      stamp and is no newer than a supervisor build is the one that build embedded. */
  ghost predicate Consistent(p: Plan, w: World) {
    && w.due <= p.stamped
    && (forall s :: s in w.place ==> w.place[s].mtime <= w.clock)
    && (forall k :: k in w.kept ==> w.kept[k].mtime <= w.clock)
    && AllEmbedOlder(p, w)
    && (forall s :: s in p.services && s !in p.stamped && (s, 0) in w.kept ==>
          s in w.place && w.place[s].content == w.kept[(s, 0)].content)
    && (w.supervisor.Some? ==> w.supervisor.value in w.keptSupervisors)
  }

  /** A service not awaiting its stamp and no newer than this build is the one the build embedded. */
  predicate EmbedsOlder(p: Plan, w: World, sup: Supervisor) {
    forall s :: s in p.services && s !in w.due && s in w.place ==>
      w.place[s].mtime <= sup.mtime ==> s in sup.embedded && sup.embedded[s] == w.place[s].content
  }

  predicate AllEmbedOlder(p: Plan, w: World) {
    forall v :: v in w.keptSupervisors ==>
      w.keptSupervisors[v].mtime <= w.clock && EmbedsOlder(p, w, w.keptSupervisors[v])
  }

  /** Later than every supervisor kept. */
  predicate Later(w: World, at: nat) { forall v :: v in w.keptSupervisors ==> w.keptSupervisors[v].mtime < at }

  /** The discipline of times: a service is compiled without a stamp to come, or stamped, later than every
      supervisor build before it. Everything else may share a time with anything. */
  predicate Timely(p: Plan, w: World, e: Step) {
    match e
    case Cargo(s, v, at) => s !in p.stamped && !UpToDate(w, s, v) ==> Later(w, at)
    case Touch(_, at) => Later(w, at)
    case _ => true
  }

  lemma CargoEmbeds(p: Plan, w: World, s: Service, v: nat, at: nat)
    requires Consistent(p, w) && Allowed(p, w, Cargo(s, v, at)) && Timely(p, w, Cargo(s, v, at))
    ensures AllEmbedOlder(p, AfterCargo(p, w, s, v, at))
  {
    var w' := AfterCargo(p, w, s, v, at);
    forall u | u in w'.keptSupervisors ensures EmbedsOlder(p, w', w'.keptSupervisors[u]) {
      assert EmbedsOlder(p, w, w.keptSupervisors[u]);
    }
  }

  lemma CargoKeeps(p: Plan, w: World, s: Service, v: nat, at: nat)
    requires Consistent(p, w) && Allowed(p, w, Cargo(s, v, at)) && Timely(p, w, Cargo(s, v, at))
    ensures Consistent(p, AfterCargo(p, w, s, v, at))
    ensures var w' := AfterCargo(p, w, s, v, at); s in w'.place && w'.place[s].content == Wanted(w, s, v)
  {
    CargoEmbeds(p, w, s, v, at);
  }

  lemma SupervisorEmbeds(p: Plan, w: World, v: nat, at: nat)
    requires Consistent(p, w) && at >= w.clock
    ensures AllEmbedOlder(p, AfterCargoSupervisor(p, w, v, at))
  {
    var w' := AfterCargoSupervisor(p, w, v, at);
    forall u | u in w'.keptSupervisors ensures EmbedsOlder(p, w', w'.keptSupervisors[u]) {
      if u in w.keptSupervisors && w'.keptSupervisors[u] == w.keptSupervisors[u] {
        assert EmbedsOlder(p, w, w.keptSupervisors[u]);
      }
    }
  }

  lemma SupervisorKeeps(p: Plan, w: World, v: nat, at: nat)
    requires Consistent(p, w) && at >= w.clock
    ensures var w' := AfterCargoSupervisor(p, w, v, at);
            && Consistent(p, w') && InPlace(w').Some? && NothingNewer(p, w', InPlace(w').value.mtime)
  {
    SupervisorEmbeds(p, w, v, at);
  }

  lemma TouchKeeps(p: Plan, w: World, s: Service, at: nat)
    requires Consistent(p, w) && s in w.place && at >= w.clock && Later(w, at)
    ensures Consistent(p, AfterTouch(w, s, at))
  {
    var w' := AfterTouch(w, s, at);
    forall u | u in w'.keptSupervisors ensures EmbedsOlder(p, w', w'.keptSupervisors[u]) {
      assert EmbedsOlder(p, w, w.keptSupervisors[u]);
    }
  }

  /** Every timely step keeps it. */
  lemma StepKeeps(p: Plan, w: World, e: Step)
    requires Consistent(p, w) && Allowed(p, w, e) && Timely(p, w, e)
    ensures Consistent(p, After(p, w, e))
  {
    match e
    case Edit(s) => EditKeeps(p, w, After(p, w, e));
    case EditSupervisor => EditKeeps(p, w, After(p, w, e));
    case Cargo(s, v, at) => CargoKeeps(p, w, s, v, at);
    case Touch(s, at) => TouchKeeps(p, w, s, at);
    case CargoSupervisor(v, at) => SupervisorKeeps(p, w, v, at);
  }

  lemma EditKeeps(p: Plan, w: World, w': World)
    requires Consistent(p, w) && w'.(source := w.source, supervisorSource := w.supervisorSource) == w
    ensures Consistent(p, w')
  {
    forall u | u in w'.keptSupervisors ensures EmbedsOlder(p, w', w'.keptSupervisors[u]) {
      assert EmbedsOlder(p, w, w.keptSupervisors[u]);
    }
  }

  /** Steps in any order, each allowed where it comes. */
  predicate Runs(p: Plan, w: World, es: seq<Step>)
    decreases |es|
  {
    es == [] || (Allowed(p, w, es[0]) && Runs(p, After(p, w, es[0]), es[1..]))
  }

  predicate AllTimely(p: Plan, w: World, es: seq<Step>)
    requires Runs(p, w, es)
    decreases |es|
  {
    es == [] || (Timely(p, w, es[0]) && AllTimely(p, After(p, w, es[0]), es[1..]))
  }

  function AfterAll(p: Plan, w: World, es: seq<Step>): World
    requires Runs(p, w, es)
    decreases |es|
  {
    if es == [] then w else AfterAll(p, After(p, w, es[0]), es[1..])
  }

  lemma {:induction false} RunKeeps(p: Plan, w: World, es: seq<Step>)
    requires Consistent(p, w) && Runs(p, w, es) && AllTimely(p, w, es)
    ensures Consistent(p, AfterAll(p, w, es))
    decreases |es|
  {
    if es != [] {
      StepKeeps(p, w, es[0]);
      RunKeeps(p, After(p, w, es[0]), es[1..]);
    }
  }

  const EMPTY := World(0, map[], map[], map[], 0, map[], None, {})

  /** After any run of build steps from an empty target directory, in any order, at any times that do not run
      backwards, in which every two-variant build has been stamped: a passing order check means the supervisor
      in place holds exactly the services on disk, unless a service was compiled or stamped at the very time of
      an earlier supervisor build. */
  lemma PassingCheckMeansFresh(p: Plan, es: seq<Step>)
    requires Runs(p, EMPTY, es)
    ensures CheckIsTrue(p, AfterAll(p, EMPTY, es)) || !AllTimely(p, EMPTY, es)
  {
    if AllTimely(p, EMPTY, es) {
      assert Consistent(p, EMPTY);
      RunKeeps(p, EMPTY, es);
      var w := AfterAll(p, EMPTY, es);
      if CheckPasses(p, w) {
        assert EmbedsOlder(p, w, InPlace(w).value);
      }
    }
  }

  /** The service on disk would not be the one inside the supervisor in place. */
  predicate Differs(w: World, s: Service, content: Binary) {
    InPlace(w).Some? && !(s in InPlace(w).value.embedded && InPlace(w).value.embedded[s] == content)
  }

  /** Exactly when compiling a service under a passing check fools it: when it is at the time of the supervisor. */
  lemma CompiledExactly(p: Plan, w: World, s: Service, at: nat)
    requires Consistent(p, w) && CheckPasses(p, w) && w.due == {} && s !in p.stamped && Allowed(p, w, Cargo(s, 0, at))
    requires !UpToDate(w, s, 0) && Differs(w, s, Wanted(w, s, 0))
    ensures CheckIsTrue(p, After(p, w, Cargo(s, 0, at))) <==> at != InPlace(w).value.mtime
  {
    var w', sup := After(p, w, Cargo(s, 0, at)), InPlace(w).value;
    assert InPlace(w') == Some(sup) && sup.mtime <= w.clock <= at;
    assert w'.place[s] == File(Wanted(w, s, 0), at);
  }

  /** Exactly when stamping the one service that awaits it fools the check: when it is at the time of the
      supervisor. */
  lemma StampedExactly(p: Plan, w: World, s: Service, at: nat)
    requires Consistent(p, w) && InPlace(w).Some? && w.due == {s} && Allowed(p, w, Touch(s, at))
    requires forall t :: t in p.services && t in w.place && t != s ==> w.place[t].mtime <= InPlace(w).value.mtime
    requires Differs(w, s, w.place[s].content)
    ensures CheckIsTrue(p, After(p, w, Touch(s, at))) <==> at != InPlace(w).value.mtime
  {
    var w', sup := After(p, w, Touch(s, at)), InPlace(w).value;
    assert InPlace(w') == Some(sup) && sup.mtime <= w.clock <= at;
    assert w'.due == {} && w'.place[s] == File(w.place[s].content, at);
  }

  /** So equal times fool it: a service edited and built again at the time of the supervisor that holds the old
      one. */
  lemma EqualTimesFool(p: Plan, s: Service, at: nat)
    requires s in p.services && s !in p.stamped
    ensures var es := [Cargo(s, 0, at), CargoSupervisor(0, at), Edit(s), Cargo(s, 0, at)];
            Runs(p, EMPTY, es) && !CheckIsTrue(p, AfterAll(p, EMPTY, es))
  {
    var w1 := AfterCargo(p, EMPTY, s, 0, at);
    var w2 := AfterCargoSupervisor(p, w1, 0, at);
    var w3 := After(p, w2, Edit(s));
    var w4 := AfterCargo(p, w3, s, 0, at);
    assert w4.place[s] == File(Binary(0, 1), at);
    assert InPlace(w4).value.embedded[s] == Binary(0, 0) && InPlace(w4).value.mtime == at;
    RunsCons(p, w3, Cargo(s, 0, at), []);
    RunsCons(p, w2, Edit(s), [Cargo(s, 0, at)]);
    RunsCons(p, w1, CargoSupervisor(0, at), [Edit(s), Cargo(s, 0, at)]);
    RunsCons(p, EMPTY, Cargo(s, 0, at), [CargoSupervisor(0, at), Edit(s), Cargo(s, 0, at)]);
  }

  /** The stamp is what makes it so: without it, switching a variant there and back leaves the check
      passing over a supervisor that holds the other variant, however far apart the times. */
  lemma UnstampedCheckIsFooled(s: Service)
    ensures var p := Plan({s}, {s});
            var es := [Cargo(s, 0, 1), CargoSupervisor(0, 2), Cargo(s, 1, 3), CargoSupervisor(0, 4), Cargo(s, 0, 5)];
            && Runs(p, EMPTY, es)
            && CheckPasses(p, AfterAll(p, EMPTY, es)) && !EmbedsWhatIsBuilt(p, AfterAll(p, EMPTY, es))
  {
    var p := Plan({s}, {s});
    var a, b, c, d, e := Cargo(s, 0, 1), CargoSupervisor(0, 2), Cargo(s, 1, 3), CargoSupervisor(0, 4), Cargo(s, 0, 5);
    var w1 := After(p, EMPTY, a);
    var w2 := After(p, w1, b);
    var w3 := After(p, w2, c);
    var w4 := After(p, w3, d);
    var w5 := After(p, w4, e);
    assert !NothingNewer(p, w3, w3.keptSupervisors[0].mtime);
    assert w5.place[s] == File(Binary(0, 0), 1);
    assert InPlace(w5).value.embedded[s] == Binary(1, 0) && InPlace(w5).value.mtime == 4;
    RunsCons(p, w4, e, []);
    RunsCons(p, w3, d, [e]);
    RunsCons(p, w2, c, [d, e]);
    RunsCons(p, w1, b, [c, d, e]);
    RunsCons(p, EMPTY, a, [b, c, d, e]);
  }

  lemma RunsCons(p: Plan, w: World, e: Step, es: seq<Step>)
    requires Allowed(p, w, e) && Runs(p, After(p, w, e), es)
    ensures Runs(p, w, [e] + es) && AfterAll(p, w, [e] + es) == AfterAll(p, After(p, w, e), es)
  {
    assert ([e] + es)[1..] == es;
  }

  // --- the script ---

  /** The build directory, driven by the script. */
  class Tree {
    var w: World

    constructor (w: World)
      ensures this.w == w
    {
      this.w := w;
    }

    /** One turn of the service loop: cargo, then the stamp where there are two variants. */
    method BuildService(p: Plan, s: Service, v: nat, at: nat, stampedAt: nat)
      requires Consistent(p, w) && Allowed(p, w, Cargo(s, v, at)) && Later(w, at) && at <= stampedAt
      modifies this
      ensures Consistent(p, w) && w.clock <= stampedAt && w.keptSupervisors == old(w).keptSupervisors
      ensures w == (var built := AfterCargo(p, old(w), s, v, at);
                    if s in p.stamped then AfterTouch(built, s, stampedAt) else built)
      ensures s in w.place && w.place[s].content == Wanted(old(w), s, v) && s !in w.due
      ensures w.due <= old(w).due && w.source == old(w).source
      ensures forall t :: t != s && t in old(w).place ==> t in w.place && w.place[t] == old(w).place[t]
    {
      CargoKeeps(p, w, s, v, at);
      w := AfterCargo(p, w, s, v, at);
      if s in p.stamped {
        TouchKeeps(p, w, s, stampedAt);
        w := AfterTouch(w, s, stampedAt);
      }
    }

    /** `main`, from the first service to the order check, at times that do not run backwards and start after
        every supervisor build before. Whatever an earlier run left behind, even one stopped between a build and
        its stamp, the check passes and the supervisor in place holds, for every service, the variant asked for,
        built from the sources as they are. */
    method BuildAll(p: Plan, order: seq<Service>, variant: Service -> nat, supervisorVariant: nat, now: seq<nat>)
      requires Consistent(p, w)
      requires |now| == 2 * |order| + 1 && now[0] >= w.clock && Later(w, now[0])
      requires forall i, j :: 0 <= i <= j < |now| ==> now[i] <= now[j]
      requires forall s :: s in order <==> s in p.services
      requires p.stamped <= p.services
      requires forall s :: s in p.services && s !in p.stamped ==> variant(s) == 0
      modifies this
      ensures Consistent(p, w) && w.due == {} && CheckPasses(p, w) && w.source == old(w).source
      ensures forall s :: s in p.services ==>
                s in InPlace(w).value.embedded && InPlace(w).value.embedded[s] == Wanted(w, s, variant(s))
    {
      for i := 0 to |order|
        invariant Consistent(p, w) && w.source == old(w).source && w.keptSupervisors == old(w).keptSupervisors
        invariant w.clock <= now[2 * i]
        invariant forall s :: s in order[..i] ==>
                    s !in w.due && s in w.place && w.place[s].content == Wanted(w, s, variant(s))
      {
        var s := order[i];
        assert order[..i + 1] == order[..i] + [s];
        assert now[0] <= now[2 * i] <= now[2 * i + 1] <= now[2 * i + 2];
        BuildService(p, s, variant(s), now[2 * i], now[2 * i + 1]);
      }
      assert order[..|order|] == order;
      SupervisorKeeps(p, w, supervisorVariant, now[2 * |order|]);
      w := AfterCargoSupervisor(p, w, supervisorVariant, now[2 * |order|]);
      assert EmbedsOlder(p, w, InPlace(w).value);
    }
  }
}
