/**
 The ticket protocol of the UI settings provider: loads, writes and authentication notices settle in any order,
 and only the request holding the newest ticket may change what is shown.
 */
module SettingsTickets {
  import opened Prelude

  datatype Scope = User | Tenant

  type Patch = map<string, string>

  datatype Layer = Layer(settings: Patch, version: nat)

  /** What a load brings: the editable layers and whether each may be edited. */
  datatype Content = Content(user: Option<Layer>, tenant: Option<Layer>, userAllowed: bool, tenantAllowed: bool)

  /** What is shown: the built-in stand-in, or the content a load brought under its ticket. */
  datatype Snapshot = Temporary | Loaded(ticket: nat, content: Content)

  datatype Status = Loading | Ready | Saving | Unauthorized | Forbidden | Conflict | Failed

  datatype Failure = SessionInvalid | Http(status: nat) | Other

  datatype Notice = Changed | Invalid

  /** A request to store: which layer, the whole next patch, and the version it was read at. */
  datatype Request =
    | Write(scope: Scope, patch: Patch, version: Option<nat>)
    | Remove(scope: Scope, at: nat)

  /** The provider: its refs and state, what it has in flight by ticket, and what each load has brought so far. */
  datatype State = State(
    mounted: bool, snapshot: Snapshot, status: Status, sequence: nat, busy: bool, available: bool,
    loads: set<nat>, persists: map<nat, Request>, brought: map<nat, Content>)

  const INITIAL := State(false, Temporary, Loading, 0, false, false, {}, map[], map[])

  function StatusOf(f: Failure): Status {
    if f.SessionInvalid? || (f.Http? && f.status == 401) then Unauthorized
    else if f.Http? && f.status == 403 then Forbidden
    else if f.Http? && f.status == 409 then Conflict
    else Failed
  }

  function LayerOf(c: Content, scope: Scope): Option<Layer> {
    if scope == User then c.user else c.tenant
  }

  predicate Allowed(c: Content, scope: Scope) {
    if scope == User then c.userAllowed else c.tenantAllowed
  }

  function Reset(s: State, next: Status): State {
    s.(available := false, snapshot := Temporary, status := next)
  }

  /** reload: a new ticket, nothing shown, a load in flight. */
  function Reloading(s: State): State {
    Reset(s.(sequence := s.sequence + 1, busy := false, loads := s.loads + {s.sequence + 1}), Loading)
  }

  /** What the settings page may edit now: the content shown, when a change would be accepted. */
  function Editable(s: State, scope: Scope): Option<Content> {
    if s.available && !s.busy && s.snapshot.Loaded? && Allowed(s.snapshot.content, scope)
      then Some(s.snapshot.content) else None
  }

  function SettingsOf(c: Content, scope: Scope): Patch {
    match LayerOf(c, scope) case Some(l) => l.settings case None => map[]
  }

  /** The request a patch needs, if any: an empty patch removes the layer or, when there is none, needs nothing. */
  function RequestFor(c: Content, scope: Scope, patch: Patch): Option<Request> {
    match LayerOf(c, scope)
    case Some(l) => Some(if patch == map[] then Remove(scope, l.version) else Write(scope, patch, Some(l.version)))
    case None => if patch == map[] then None else Some(Write(scope, patch, None))
  }

  /**
   persist up to its first await: ignored unless editable; otherwise a new ticket, saving, and the request in flight.
   */
  function Persisting(s: State, scope: Scope, patch: Patch): State {
    match Editable(s, scope)
    case None => s
    case Some(c) =>
      match RequestFor(c, scope, patch)
      case Some(r) =>
        s.(sequence := s.sequence + 1, busy := true, status := Saving, persists := s.persists[s.sequence + 1 := r])
      case None => Reloading(s.(sequence := s.sequence + 1))
  }

  datatype Step =
    | Mount | Unmount | Reload | Notified(notice: Notice)
    | SetSetting(scope: Scope, key: string, value: string) | ClearSetting(scope: Scope, key: string)
    | LoadSucceeds(request: nat, content: Content) | LoadFails(request: nat, failure: Failure)
    | PersistSucceeds(request: nat) | PersistFails(request: nat, failure: Failure)

  /** Requests settle once; the consumers of the provider act while it is mounted. */
  predicate Legal(s: State, step: Step) {
    match step
    case Mount => !s.mounted
    case LoadSucceeds(t, _) => t in s.loads
    case LoadFails(t, _) => t in s.loads
    case PersistSucceeds(t) => t in s.persists
    case PersistFails(t, _) => t in s.persists
    case _ => s.mounted
  }

  function Next(s: State, step: Step): State
    requires Legal(s, step)
  {
    match step
    case Mount => Reloading(s.(mounted := true))
    case Unmount => s.(mounted := false, sequence := s.sequence + 1, available := false)
    case Reload => Reloading(s)
    case Notified(notice) =>
      var r := Reset(s.(sequence := s.sequence + 1, busy := false),
        if notice == Invalid then Unauthorized else Loading);
      if notice == Changed then Reloading(r) else r
    case SetSetting(scope, key, value) =>
      Persisting(s, scope, (if s.snapshot.Loaded? then SettingsOf(s.snapshot.content, scope) else map[])[key := value])
    case ClearSetting(scope, key) =>
      Persisting(s, scope, (if s.snapshot.Loaded? then SettingsOf(s.snapshot.content, scope) else map[]) - {key})
    case LoadSucceeds(t, content) =>
      var r := s.(loads := s.loads - {t}, brought := s.brought[t := content]);
      if t != s.sequence then r else r.(snapshot := Loaded(t, content), available := true, status := Ready)
    case LoadFails(t, failure) =>
      var r := s.(loads := s.loads - {t});
      if t != s.sequence then r else Reset(r, StatusOf(failure))
    case PersistSucceeds(t) =>
      var r := s.(persists := s.persists - {t});
      if t != s.sequence then r else Reloading(r)
    case PersistFails(t, failure) =>
      var r := s.(persists := s.persists - {t});
      if t != s.sequence then r else Reset(r, StatusOf(failure)).(busy := false)
  }

  predicate LegalRun(s: State, steps: seq<Step>)
    decreases |steps|
  {
    steps == [] || (Legal(s, steps[0]) && LegalRun(Next(s, steps[0]), steps[1..]))
  }

  function Run(s: State, steps: seq<Step>): State
    requires LegalRun(s, steps)
    decreases |steps|
  {
    if steps == [] then s else Run(Next(s, steps[0]), steps[1..])
  }

  // ---- invariants --------------------------------------------------------------------------------------------------

  predicate InFlight(s: State, ticket: nat) {
    ticket in s.loads || ticket in s.persists
  }

  /** What the status says about the newest ticket, the snapshot and the two flags. */
  predicate Consistent(s: State) {
    match s.status
    case Ready => s.snapshot.Loaded? && s.snapshot.ticket == s.sequence && s.available && !s.busy
      && !InFlight(s, s.sequence)
    case Saving => s.snapshot.Loaded? && s.snapshot.ticket + 1 == s.sequence && s.available && s.busy
      && s.sequence in s.persists
    case Loading => s.snapshot == Temporary && !s.available && !s.busy && s.sequence in s.loads
    case _ => s.snapshot == Temporary && !s.available && !s.busy && !InFlight(s, s.sequence)
  }

  function VersionOf(c: Content, scope: Scope): Option<nat> {
    match LayerOf(c, scope) case Some(l) => Some(l.version) case None => None
  }

  /** Two patches say the same of every key but one. */
  predicate ApartFrom(a: Patch, b: Patch, key: string) {
    a - {key} == b - {key}
  }

  ghost predicate OneKeyApart(a: Patch, b: Patch) {
    exists key :: ApartFrom(a, b, key)
  }

  /**
   A store request was built on the load of the ticket before its own: an allowed layer, at the version it had, and its
   settings with one key set or cleared, or none left.
   */
  ghost predicate BuiltOn(brought: map<nat, Content>, ticket: nat, r: Request) {
    && ticket > 0 && ticket - 1 in brought
    && Allowed(brought[ticket - 1], r.scope)
    && VersionOf(brought[ticket - 1], r.scope) == (match r case Write(_, _, v) => v case Remove(_, v) => Some(v))
    && OneKeyApart(if r.Write? then r.patch else map[], SettingsOf(brought[ticket - 1], r.scope))
  }

  /** Tickets in flight are issued and distinct, and what is shown is what the load of its ticket brought. */
  ghost predicate Tickets(s: State) {
    && (forall t | t in s.loads :: t <= s.sequence && t !in s.brought)
    && (forall t | t in s.persists :: t <= s.sequence && t !in s.loads && BuiltOn(s.brought, t, s.persists[t]))
    && (forall t | t in s.brought :: t <= s.sequence)
    && (s.snapshot.Loaded? ==> s.snapshot.ticket in s.brought && s.brought[s.snapshot.ticket] == s.snapshot.content)
  }

  ghost predicate Good(s: State) {
    Tickets(s) && if s.mounted then Consistent(s) else !s.available && !InFlight(s, s.sequence)
  }

  lemma ReloadingIsGood(s: State)
    requires Tickets(s) && s.mounted
    ensures Good(Reloading(s))
  {
  }

  lemma PersistingKeepsGood(s: State, scope: Scope, patch: Patch, key: string)
    requires Good(s) && s.mounted
    requires s.snapshot.Loaded? ==> ApartFrom(patch, SettingsOf(s.snapshot.content, scope), key)
    ensures Good(Persisting(s, scope, patch))
  {
    match Editable(s, scope)
    case None =>
    case Some(c) =>
      if RequestFor(c, scope, patch) == None {
        ReloadingIsGood(s.(sequence := s.sequence + 1));
      }
  }

  lemma BuiltOnGrows(brought: map<nat, Content>, t: nat, c: Content, ticket: nat, r: Request)
    requires BuiltOn(brought, ticket, r) && t !in brought
    ensures BuiltOn(brought[t := c], ticket, r)
  {
    hide OneKeyApart;
  }

  lemma SettlingKeepsGood(s: State, step: Step)
    requires Good(s) && Legal(s, step)
    requires step.LoadSucceeds? || step.LoadFails? || step.PersistFails?
    ensures Good(Next(s, step))
  {
    hide Persisting, Reloading, BuiltOn, StatusOf, RequestFor;
    if step.LoadSucceeds? {
      forall t | t in s.persists
        ensures BuiltOn(s.brought[step.request := step.content], t, s.persists[t])
      {
        BuiltOnGrows(s.brought, step.request, step.content, t, s.persists[t]);
      }
    }
    StatusIsFailure(if step.LoadFails? || step.PersistFails? then step.failure else Other);
  }

  lemma StatusIsFailure(f: Failure)
    ensures StatusOf(f) != Ready && StatusOf(f) != Loading && StatusOf(f) != Saving
  {
  }

  lemma StepKeepsGood(s: State, step: Step)
    requires Good(s) && Legal(s, step)
    ensures Good(Next(s, step))
  {
    hide Persisting, Reloading, BuiltOn;
    match step {
      case Mount => ReloadingIsGood(s.(mounted := true));
      case Reload => ReloadingIsGood(s);
      case Notified(notice) =>
        if notice == Changed {
          ReloadingIsGood(Reset(s.(sequence := s.sequence + 1, busy := false), Loading));
        }
      case SetSetting(scope, key, value) =>
        PersistingKeepsGood(s, scope,
          (if s.snapshot.Loaded? then SettingsOf(s.snapshot.content, scope) else map[])[key := value], key);
      case ClearSetting(scope, key) =>
        PersistingKeepsGood(s, scope,
          (if s.snapshot.Loaded? then SettingsOf(s.snapshot.content, scope) else map[]) - {key}, key);
      case PersistSucceeds(t) =>
        if t == s.sequence && s.mounted {
          ReloadingIsGood(s.(persists := s.persists - {t}));
        }
      case Unmount =>
      case _ => SettlingKeepsGood(s, step);
    }
  }

  lemma {:induction false} RunKeepsGood(s: State, steps: seq<Step>)
    requires Good(s) && LegalRun(s, steps)
    ensures Good(Run(s, steps))
    decreases |steps|
  {
    if steps != [] {
      StepKeepsGood(s, steps[0]);
      hide Good, Next, Legal;
      RunKeepsGood(Next(s, steps[0]), steps[1..]);
    }
  }

  // ---- what every run keeps ---------------------------------------------------------------------------------------

  /**
   Whatever order loads, writes and notices come in: while mounted, settings shown as ready are what the load with
   the newest ticket brought; busy means saving, with the newest ticket in flight; loading means the newest ticket
   is a load in flight; and a request to store was built on the load before it.
   */
  lemma TicketsHold(steps: seq<Step>)
    requires LegalRun(INITIAL, steps)
    ensures var s := Run(INITIAL, steps);
      && (s.mounted && s.status == Ready ==>
            s.sequence in s.brought && s.snapshot == Loaded(s.sequence, s.brought[s.sequence]) && !s.busy)
      && (s.mounted ==> (s.busy <==> s.status == Saving) && (s.busy ==> s.sequence in s.persists))
      && (s.mounted && s.status == Loading ==> s.sequence in s.loads)
      && (forall t | t in s.persists :: BuiltOn(s.brought, t, s.persists[t]))
  {
    RunKeepsGood(INITIAL, steps);
    hide Run, BuiltOn;
  }

  /** The layer an edit starts from, as it was loaded. */
  function Base(c: Content, scope: Scope): (Patch, Option<nat>) {
    match if scope == User then c.user else c.tenant
    case Some(l) => (l.settings, Some(l.version))
    case None => (map[], None)
  }

  /**
   An edit is accepted exactly on settings that are shown, may be edited and are not being saved. Setting a key stores
   the whole loaded layer with that key set; clearing one stores it without the key, removes the layer when nothing is
   left, and only loads again when there was no layer; an edit that is not accepted does nothing.
   */
  lemma EditsStore(s: State, scope: Scope, key: string, value: string)
    requires s.mounted
    ensures var n, m := Next(s, Step.SetSetting(scope, key, value)), Next(s, Step.ClearSetting(scope, key));
      if s.available && !s.busy && s.snapshot.Loaded?
         && (if scope == User then s.snapshot.content.userAllowed else s.snapshot.content.tenantAllowed)
      then
        var (settings, version) := Base(s.snapshot.content, scope);
        && n.persists == s.persists[s.sequence + 1 := Write(scope, settings[key := value], version)]
        && n.loads == s.loads && n.busy && n.sequence == s.sequence + 1
        && (if settings - {key} != map[] then
              && m.persists == s.persists[s.sequence + 1 := Write(scope, settings - {key}, version)]
              && m.loads == s.loads && m.busy && m.sequence == s.sequence + 1
            else if version.Some? then
              && m.persists == s.persists[s.sequence + 1 := Remove(scope, version.value)]
              && m.loads == s.loads && m.busy && m.sequence == s.sequence + 1
            else m.persists == s.persists && m.loads == s.loads + {m.sequence} && m.sequence == s.sequence + 2)
      else n == s && m == s
  {
    if s.snapshot.Loaded? {
      assert key in SettingsOf(s.snapshot.content, scope)[key := value];
    }
  }

  /** What each failure shows. */
  lemma FailuresShown(f: Failure)
    ensures StatusOf(f) == Unauthorized <==> f == SessionInvalid || f == Http(401)
    ensures StatusOf(f) == Forbidden <==> f == Http(403)
    ensures StatusOf(f) == Conflict <==> f == Http(409)
    ensures StatusOf(f) != Ready && StatusOf(f) != Loading && StatusOf(f) != Saving
  {
  }

  /** With nothing left in flight the page is neither loading nor saving: no wait outlives its request. */
  lemma NeverStuck(steps: seq<Step>)
    requires LegalRun(INITIAL, steps)
    ensures var s := Run(INITIAL, steps);
      s.mounted && s.loads == {} && s.persists == map[] ==> s.status != Loading && s.status != Saving && !s.busy
  {
    TicketsHold(steps);
    hide Run;
  }

  /** A request that no longer holds the newest ticket changes nothing that is shown or allowed when it settles. */
  lemma StaleSettles(s: State, step: Step, request: nat)
    requires Good(s) && Legal(s, step) && request != s.sequence
    requires match step
      case LoadSucceeds(t, _) => t == request
      case LoadFails(t, _) => t == request
      case PersistSucceeds(t) => t == request
      case PersistFails(t, _) => t == request
      case _ => false
    ensures var r := Next(s, step);
      && r.snapshot == s.snapshot && r.status == s.status && r.busy == s.busy && r.available == s.available
      && r.sequence == s.sequence && !InFlight(r, request)
  {
  }

  /** When the newest request settles: a load ends loading, and a store ends saving, busy or not, at once. */
  lemma NewestSettles(s: State, step: Step)
    requires Good(s) && Legal(s, step) && s.mounted
    ensures step.LoadSucceeds? && step.request == s.sequence ==> s.status == Loading && Next(s, step).status == Ready
    ensures step.LoadFails? && step.request == s.sequence ==>
      s.status == Loading && Next(s, step).status == StatusOf(step.failure)
    ensures step.PersistSucceeds? && step.request == s.sequence ==>
      s.status == Saving && Next(s, step).status == Loading && !Next(s, step).busy
    ensures step.PersistFails? && step.request == s.sequence ==>
      s.status == Saving && Next(s, step).status == StatusOf(step.failure) && !Next(s, step).busy
        && Next(s, step).snapshot == Temporary
  {
  }

  /** After unmounting nothing lands until the next mount, whatever was still in flight. */
  lemma {:induction false} NothingLandsUnmounted(s: State, steps: seq<Step>)
    requires Good(s) && !s.mounted && LegalRun(s, steps)
    requires forall k | 0 <= k < |steps| :: !steps[k].Mount?
    ensures var r := Run(s, steps);
      !r.mounted && r.snapshot == s.snapshot && r.status == s.status && r.sequence == s.sequence && !r.available
    decreases |steps|
  {
    if steps != [] {
      assert !steps[0].Mount?;
      StepKeepsGood(s, steps[0]);
      assert forall k | 0 <= k < |steps[1..]| :: steps[1..][k] == steps[k + 1];
      NothingLandsUnmounted(Next(s, steps[0]), steps[1..]);
    }
  }

  // ---- the provider -----------------------------------------------------------------------------------------------

  /** The provider with its refs; each asynchronous function is split at its await into a start and a settlement. */
  class UiCustomizationProvider {
    var mounted: bool
    var snapshot: Snapshot
    var status: Status
    var sequence: nat
    var busy: bool
    var available: bool
    var loads: set<nat>
    var persists: map<nat, Request>
    ghost var brought: map<nat, Content>

    ghost function View(): State
      reads this
    {
      State(mounted, snapshot, status, sequence, busy, available, loads, persists, brought)
    }

    constructor ()
      ensures View() == INITIAL
    {
      mounted, snapshot, status, sequence, busy, available := false, Temporary, Loading, 0, false, false;
      loads, persists, brought := {}, map[], map[];
    }

    method ResetTo(next: Status)
      modifies this`available, this`snapshot, this`status
      ensures View() == Reset(old(View()), next)
    {
      available := false;
      snapshot := Temporary;
      status := next;
    }

    method Reload()
      modifies this
      ensures View() == Reloading(old(View()))
    {
      sequence := sequence + 1;
      busy := false;
      ResetTo(Loading);
      loads := loads + {sequence};
    }

    method LoadSettled(request: nat, outcome: Result<Content, Failure>)
      requires request in loads
      modifies this
      ensures View() ==
        Next(old(View()), match outcome case Ok(c) => LoadSucceeds(request, c) case Err(f) => LoadFails(request, f))
    {
      loads := loads - {request};
      match outcome
      case Ok(content) =>
        brought := brought[request := content];
        if request != sequence {
          return;
        }
        snapshot := Loaded(request, content);
        available := true;
        status := Ready;
      case Err(failure) =>
        if request == sequence {
          ResetTo(StatusOf(failure));
        }
    }

    method Mount()
      requires !mounted
      modifies this
      ensures View() == Next(old(View()), Step.Mount)
    {
      mounted := true;
      Reload();
    }

    method Unmount()
      requires mounted
      modifies this
      ensures View() == Next(old(View()), Step.Unmount)
    {
      sequence := sequence + 1;
      available := false;
      mounted := false;
    }

    method Notify(notice: Notice)
      requires mounted
      modifies this
      ensures View() == Next(old(View()), Notified(notice))
    {
      sequence := sequence + 1;
      busy := false;
      ResetTo(if notice == Invalid then Unauthorized else Loading);
      if notice == Changed {
        Reload();
      }
    }

    method Persist(scope: Scope, next: Patch)
      modifies this
      ensures View() == Persisting(old(View()), scope, next)
    {
      if !available || busy || !snapshot.Loaded? || !Allowed(snapshot.content, scope) {
        return;
      }
      var layer := LayerOf(snapshot.content, scope);
      sequence := sequence + 1;
      busy := true;
      status := Saving;
      if next == map[] && layer.Some? {
        persists := persists[sequence := Remove(scope, layer.value.version)];
      } else if next != map[] {
        persists := persists[sequence := Write(scope, next, if layer.Some? then Some(layer.value.version) else None)];
      } else {
        Reload();
      }
    }

    method PersistSettled(request: nat, failure: Option<Failure>)
      requires request in persists
      modifies this
      ensures View() ==
        Next(old(View()), match failure case None => PersistSucceeds(request) case Some(f) => PersistFails(request, f))
    {
      persists := persists - {request};
      if failure == None {
        if request == sequence {
          Reload();
        }
      } else if request == sequence {
        ResetTo(StatusOf(failure.value));
      }
      if request == sequence {
        busy := false;
      }
    }

    method SetSetting(scope: Scope, key: string, value: string)
      requires mounted
      modifies this
      ensures View() == Next(old(View()), Step.SetSetting(scope, key, value))
    {
      var settings := if snapshot.Loaded? then SettingsOf(snapshot.content, scope) else map[];
      Persist(scope, settings[key := value]);
    }

    method ClearSetting(scope: Scope, key: string)
      requires mounted
      modifies this
      ensures View() == Next(old(View()), Step.ClearSetting(scope, key))
    {
      var settings := if snapshot.Loaded? then SettingsOf(snapshot.content, scope) else map[];
      Persist(scope, settings - {key});
    }
  }
}
