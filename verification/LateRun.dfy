/** A run in which a grant ends up uncovered: a recorder's request is authenticated, a reload takes its row away, and
    the request is signed 1801 seconds after the reload's clock sample. */
module LateRun {
  import opened Wrappers
  import opened Commands
  import opened CommandStores
  import opened Outbox
  import opened Worlds
  import opened Guarantees
  import Authorizers
  import opened Grants
  import opened Pipeline
  import opened Coverage
  import opened LateGrants
  import Reload = AclReload

  type Service = Authorizers.Service
  type Authorizer = Authorizers.Authorizer

  const SERVICE_ID := "r"
  const KEY := Authorizers.AdmissionKey(1, 1)
  const ROW := Authorizers.AdmissionAcl("recorder", true, false, false, 0, true)

  function Fingerprint(): string { seq(64, i => 'a') }

  function MessageId(n: nat): string { seq(22, i => 'A') }

  function PublicKey(): string { seq(43, i => 'A') }

  function ServiceRows(): seq<Authorizers.ServiceRow> {
    [Authorizers.ServiceRow(SERVICE_ID, Fingerprint(), "recorder", Some(true))]
  }

  const ACL_ROW := Authorizers.AclRow(
    SERVICE_ID, Some(1), Some(1), "recorder", Some(true), Some(false), Some(false), Some(0), Some(true))

  function Before(): Authorizers.Tables { Authorizers.Tables(ServiceRows(), [ACL_ROW], []) }

  function After(): Authorizers.Tables { Authorizers.Tables(ServiceRows(), [], []) }

  function AuthorizerWith(service: Service): Authorizer {
    Authorizers.Authorizer(map[Fingerprint() := SERVICE_ID], map[SERVICE_ID := service])
  }

  const WITH_ROW := Authorizers.Service(SERVICE_ID, "recorder", true, {1}, map[KEY := ROW], {})
  const WITHOUT_ROW := Authorizers.Service(SERVICE_ID, "recorder", true, {}, map[], {})

  lemma TablesLoad()
    ensures Authorizers.Load(Before()) == Ok(AuthorizerWith(WITH_ROW))
    ensures Authorizers.Load(After()) == Ok(AuthorizerWith(WITHOUT_ROW))
  {
    ServicesLoad();
    var services := AuthorizerWith(WITHOUT_ROW).byService;
    AclLoads(services);
    hide Authorizers.LoadServices, Authorizers.LoadAcl;
  }

  lemma ServicesLoad()
    ensures Authorizers.LoadServices(ServiceRows()) == Ok(AuthorizerWith(WITHOUT_ROW))
  {
    assert ServiceRows()[..0] == [];
    assert Authorizers.LoadServices([]) == Ok(Authorizers.Authorizer(map[], map[]));
    assert Authorizers.ValidServiceRow(ServiceRows()[0]);
  }

  lemma AclLoads(services: map<string, Service>)
    requires services == map[SERVICE_ID := WITHOUT_ROW]
    ensures Authorizers.LoadAcl(services, []) == Ok(services)
    ensures Authorizers.LoadAcl(services, [ACL_ROW]) == Ok(map[SERVICE_ID := WITH_ROW])
  {
    assert [ACL_ROW][..0] == [];
    assert Authorizers.LoadAcl(services, []) == Ok(services);
    assert Authorizers.ValidAclRow(ACL_ROW) && Authorizers.KeyOf(ACL_ROW) == KEY && Authorizers.AclOf(ACL_ROW) == ROW;
    assert Authorizers.Admit(WITHOUT_ROW, ACL_ROW) == WITH_ROW;
    assert !Authorizers.AclDuplicate([], ACL_ROW) && Authorizers.EnabledService(services, SERVICE_ID);
    assert services[SERVICE_ID := WITH_ROW] == map[SERVICE_ID := WITH_ROW];
  }

  const TARGET := Reload.Target(1, SERVICE_ID, Reload.ACL_REMOVED)

  lemma RowGoes()
    ensures Reload.IsDiff(AuthorizerWith(WITH_ROW), AuthorizerWith(WITHOUT_ROW), [TARGET])
    ensures !Reload.Admits(AuthorizerWith(WITHOUT_ROW), SERVICE_ID, KEY, ROW)
  {
    assert Reload.Lost(AuthorizerWith(WITH_ROW), AuthorizerWith(WITHOUT_ROW), SERVICE_ID, KEY);
    assert Reload.IsTarget(AuthorizerWith(WITH_ROW), AuthorizerWith(WITHOUT_ROW), TARGET);
  }

  function Revocation1(): Revocation { NewCommand(Reload.RequestFor(TARGET, 5400), MessageId(0)) }

  function QueuedMap(): Pending { map[MessageId(0) := Revocation1()] }

  /** The process after the reload's batch has been queued. */
  function QueuedWorld(): World {
    World(0, true, Box(QueuedMap(), true, map[], QueuedMap()), Closed,
          History(QueuedMap(), {MessageId(0)}, {}, {}, {}, true, false))
  }

  // The states the run goes through.

  function Started(): State { State(START.(up := true), AuthorizerWith(WITH_ROW), map[], Idle, {}, {}, map[]) }

  function Held(): State { Started().(requests := map[0 := Holder(SERVICE_ID, WITH_ROW, 0)]) }

  function Begun(): State { Held().(reload := Diffed(AuthorizerWith(WITHOUT_ROW), [TARGET])) }

  function Clocked(): State { Held().(reload := Sampled(AuthorizerWith(WITHOUT_ROW), [TARGET], 0)) }

  function Durable(): State {
    Held().(world := QueuedWorld(), reload := Queued(AuthorizerWith(WITHOUT_ROW), [TARGET], 0, {MessageId(0)}))
  }

  function Swapped(): State {
    Held().(world := QueuedWorld(), auth := AuthorizerWith(WITHOUT_ROW), displaced := map[MessageId(0) := Displacement(0, 0)])
  }

  const SIGNED_AT: nat := 1801 * SECOND

  function HalfAnHourLater(): State { Swapped().(world := QueuedWorld().(now := SIGNED_AT)) }

  lemma Starts()
    ensures Act(BEGIN, Recover(Committed, Before())) == Started()
  {
    TablesLoad();
    FirstStart();
    hide Authorizers.Load, Step, AuthorizerWith;
  }

  lemma Holds()
    ensures Act(Started(), Authenticate(0, Fingerprint())) == Held()
  {
    hide Step;
  }

  lemma Begins()
    ensures Act(Held(), BeginReload(After(), [TARGET])) == Begun()
    ensures Act(Begun(), SampleClock) == Clocked()
  {
    TablesLoad();
    RowGoes();
    hide Authorizers.Load, Step, AuthorizerWith, Reload.IsDiff;
  }

  lemma RevocationIsValid()
    ensures ValidRevocation(Revocation1())
  {}

  lemma Enqueues()
    ensures Enqueue(EMPTY, [Revocation1()], Committed) == (Box(QueuedMap(), true, map[], QueuedMap()), None)
    ensures AddAll(map[], [Revocation1()]) == QueuedMap() && Ids([Revocation1()]) == {MessageId(0)}
  {
    RevocationIsValid();
    hide ValidRevocation;
    NoFaultMeansSound(map[], [Revocation1()]);
    assert [Revocation1()][..0] == [];
    assert AddAll(map[], []) == map[] && Ids([]) == {};
  }

  lemma Queues()
    ensures Act(Clocked(), QueueBatch(MessageId, Committed)) == Durable()
  {
    var p := Clocked();
    assert BatchOf(p, MessageId) == [Revocation1()];
    RevocationIsValid();
    Enqueues();
    hide ValidRevocation, Enqueue, AddAll, Ids, BatchOf;
  }

  lemma Swaps()
    ensures Act(Durable(), Swap) == Swapped()
    ensures Act(Swapped(), Outside(Tick(SIGNED_AT))) == HalfAnHourLater()
  {}

  /** From start-up to the swap. */
  function ReloadActions(): seq<Action> {
    [Recover(Committed, Before()), Authenticate(0, Fingerprint()), BeginReload(After(), [TARGET]), SampleClock,
     QueueBatch(MessageId, Committed), Swap]
  }

  lemma ReloadReaches()
    ensures Play(ReloadActions()) == Swapped()
  {
    var run := ReloadActions();
    assert run[..0] == [] && run == run[..6];
    assert run[..1] == run[..0] + [run[0]] && run[..2] == run[..1] + [run[1]] && run[..3] == run[..2] + [run[2]]
      && run[..4] == run[..3] + [run[3]] && run[..5] == run[..4] + [run[4]] && run[..6] == run[..5] + [run[5]];
    hide Act, Play, Started, Held, Begun, Clocked, Durable, Swapped;
    PlayLast(run[..0], run[0]); PlayLast(run[..1], run[1]); PlayLast(run[..2], run[2]);
    PlayLast(run[..3], run[3]); PlayLast(run[..4], run[4]); PlayLast(run[..5], run[5]);
    NothingYet();
    Starts(); Holds(); Begins(); Queues(); Swaps();
  }

  function Actions(): seq<Action> { ReloadActions() + [Outside(Tick(SIGNED_AT))] }

  lemma RunReaches()
    ensures Play(Actions()) == HalfAnHourLater()
  {
    ReloadReaches();
    PlayLast(ReloadActions(), Outside(Tick(SIGNED_AT)));
    Swaps();
    hide Act, Play, Swapped, HalfAnHourLater, ReloadActions;
  }

  lemma NothingYet()
    ensures Play([]) == BEGIN
  {}

  function Asked(): GrantRequest { GrantRequest(1, 1, "recorder", false, false, PublicKey()) }

  function Issue(): Action { IssueGrant(0, Asked(), MAXIMUM_LIFETIME, "grant") }

  lemma Issuable()
    ensures Allowed(HalfAnHourLater(), Issue())
    ensures var p := HalfAnHourLater(); var g := GrantFor(p, 0, Asked(), MAXIMUM_LIFETIME, "grant");
      !Reload.Admits(p.auth, g.serviceId, g.key, g.acl) && AllLate(p, g)
  {
    RowGoes();
    assert ValidPublicKey(Asked().servicePublicKey);
  }

  /** The request is allowed its grant, and in some continuation the grant is alive, its row gone, and the only
      revocation dropped unanswered. */
  lemma GrantEndsUncovered()
    ensures Allowed(Play(Actions()), Issue())
    ensures var g := GrantFor(Play(Actions()), 0, Asked(), MAXIMUM_LIFETIME, "grant");
      exists more :: Uncovered(Play(Actions() + [Issue()] + more), g)
  {
    RunReaches();
    Issuable();
    hide Play, Actions, Allowed, AllLate, HalfAnHourLater, Uncovered;
    SigningIsSafeIff(Actions(), 0, Asked(), MAXIMUM_LIFETIME, "grant");
  }
}
