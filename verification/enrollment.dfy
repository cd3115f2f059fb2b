/** The first-boot enrollment transaction as steps on one machine.

    A step happens whole or not at all; what the program writes in several steps appears as
    several. A crash, or a command that fails, ends an attempt after any of its steps. */
module Enrollment {
  datatype Option<+T> = None | Some(value: T)

  type Name = string

  datatype Mapping = Mapping(seuser: string, range: string)

  const GUARD_USER := "greyward_guard_u"
  const GUARD := Mapping(GUARD_USER, "s0")

  /** The SELinux users the transaction defines. */
  datatype UserDefinition = UserDefinition(roles: string, range: string)

  const USERS: map<string, UserDefinition> :=
    map[GUARD_USER := UserDefinition("greyward_guard_r", "s0"),
        "greyward_admin_u" := UserDefinition("greyward_admin_r sysadm_r", "s0-s0:c0.c1023")]

  datatype Attribute = Undefined | Empty | Closed

  /** The local SELinux policy as it would be exported; `rest` is what this program never touches. */
  datatype Policy = Policy(attribute: Attribute, users: map<string, UserDefinition>, rest: string)

  type Mappings = map<Name, Mapping>

  /** What an assembled tree holds; desktop and administration depend on the previous mappings. */
  datatype Content = OrdinaryClosure | SourceCopy | DesktopWithoutAccounts | DesktopFor(previous: Mappings) | AdminFor(previous: Mappings)
  datatype Tree = Absent | Partial | Built(content: Content)
  datatype TreeName = Ordinary | Source | Desktop | Admin

  /** The user-context file: its text can be cut short, and mode and label come after the text. */
  datatype Context = NoContext | Torn | Written(readable: bool, labelled: bool)

  datatype Phase = Preparing | PreparedInputs | PendingSession | Unenrolled

  /** The digests of the prepared inputs stand for the contents themselves. */
  datatype Inputs = Inputs(desktop: Content, admin: Content)
  datatype Receipt = Receipt(phase: Phase, previous: Mappings, inputs: Option<Inputs>)

  /** `accounts` are the installer's accounts, `wheel` the administrators among them, `default` the
      mapping of an account without an entry of its own. */
  datatype Config = Config(accounts: seq<Name>, wheel: set<Name>, default: Mapping)

  datatype Machine = Machine(
    receipt: Option<Receipt>,
    entries: Mappings,
    snapshot: Option<Policy>,
    policy: Policy,
    trees: map<TreeName, Tree>,
    context: Context,
    registered: set<Name>,
    sudoers: set<Name>)

  function MappingOf(c: Config, m: Machine, name: Name): Mapping {
    if name in m.entries then m.entries[name] else c.default
  }

  function Present(c: Config, m: Machine): Mappings {
    map a | a in c.accounts :: MappingOf(c, m, a)
  }

  function TreeOf(m: Machine, t: TreeName): Tree {
    if t in m.trees then m.trees[t] else Absent
  }

  predicate NoTrees(m: Machine) {
    TreeOf(m, Ordinary).Absent? && TreeOf(m, Source).Absent? && TreeOf(m, Desktop).Absent? && TreeOf(m, Admin).Absent?
  }

  function PreparedNow(m: Machine): Option<Inputs> {
    if TreeOf(m, Desktop).Built? && TreeOf(m, Admin).Built?
    then Some(Inputs(TreeOf(m, Desktop).content, TreeOf(m, Admin).content)) else None
  }

  // ---------------------------------------------------------------- steps

  datatype Step =
    | RequireFresh
    | CommitPreparing
    | RequirePreparing
    | Discard(tree: TreeName)
    | TakeSnapshot
    | LoadAttribute(attribute: Attribute)
    | DefineUser(user: string)
    | RequireContext
    | OpenContext
    | FillContext
    | ReadableContext
    | LabelContext
    | Begin(tree: TreeName)
    | Fill(tree: TreeName)
    | AddAccounts
    | CommitPrepared
    | RequirePrepared
    | Register(name: Name)
    | AllowSudo(name: Name)
    | MapAccount(name: Name)
    | CommitPending
    | RequirePending
    | UnmapAccount(name: Name)
    | RequireRestored(name: Name)
    | CommitUnenrolled

  function Filled(m: Machine, t: TreeName): Content {
    match t
    case Ordinary => OrdinaryClosure
    case Source => SourceCopy
    case Desktop => DesktopWithoutAccounts
    case Admin => AdminFor(if m.receipt.Some? then m.receipt.value.previous else map[])
  }

  predicate InPhase(m: Machine, phase: Phase) {
    m.receipt.Some? && m.receipt.value.phase == phase
  }

  predicate MayStart(c: Config, m: Machine) {
    && m.receipt.None? && TreeOf(m, Desktop).Absent? && TreeOf(m, Admin).Absent?
    && forall a <- c.accounts :: MappingOf(c, m, a).seuser != GUARD_USER
  }

  predicate MayResume(c: Config, m: Machine) {
    && InPhase(m, Preparing) && m.receipt.value.inputs == None
    && m.receipt.value.previous == Present(c, m)
    && (forall a <- c.accounts :: MappingOf(c, m, a).seuser != GUARD_USER)
    && m.registered == {}
  }

  predicate MayFinish(c: Config, m: Machine) {
    && InPhase(m, PreparedInputs) && m.receipt.value.inputs == PreparedNow(m) && m.receipt.value.inputs.Some?
    && m.receipt.value.previous == Present(c, m)
  }

  predicate Enrolled(c: Config, m: Machine) {
    && InPhase(m, PendingSession)
    && (forall a <- c.accounts :: MappingOf(c, m, a) == GUARD)
    && m.receipt.value.inputs == PreparedNow(m)
  }

  function When(holds: bool, m: Machine): Option<Machine> {
    if holds then Some(m) else None
  }

  /** The machine after a step; `None` when the step raises an error. */
  function Perform(c: Config, m: Machine, step: Step): Option<Machine> {
    match step
    case RequireFresh => When(MayStart(c, m), m)
    case CommitPreparing => Some(m.(receipt := Some(Receipt(Preparing, Present(c, m), None))))
    case RequirePreparing => When(MayResume(c, m), m)
    case Discard(tree) => Some(m.(trees := m.trees[tree := Absent]))
    case TakeSnapshot => Some(if m.snapshot.Some? then m else m.(snapshot := Some(m.policy)))
    case LoadAttribute(attribute) =>
      When(attribute.Closed? ==> TreeOf(m, Ordinary) == Built(OrdinaryClosure), m.(policy := m.policy.(attribute := attribute)))
    case DefineUser(user) =>
      if user !in USERS then None
      else if user in m.policy.users then When(m.policy.users[user] == USERS[user], m)
      else Some(m.(policy := m.policy.(users := m.policy.users[user := USERS[user]])))
    case RequireContext => When(m.context.Written?, m)
    case OpenContext => When(m.context.NoContext?, m.(context := Torn))
    case FillContext => When(m.context.Torn?, m.(context := Written(false, false)))
    case ReadableContext => When(m.context.Written?, if m.context.Written? then m.(context := Written(true, m.context.labelled)) else m)
    case LabelContext => When(m.context.Written?, if m.context.Written? then m.(context := Written(m.context.readable, true)) else m)
    case Begin(tree) => When(TreeOf(m, tree).Absent?, m.(trees := m.trees[tree := Partial]))
    case Fill(tree) => When(TreeOf(m, tree).Partial?, m.(trees := m.trees[tree := Built(Filled(m, tree))]))
    case AddAccounts =>
      When(TreeOf(m, Desktop).Built? && m.receipt.Some?,
           if m.receipt.Some? then m.(trees := m.trees[Desktop := Built(DesktopFor(m.receipt.value.previous))]) else m)
    case CommitPrepared =>
      if m.receipt.Some? && PreparedNow(m).Some?
      then Some(m.(receipt := Some(Receipt(PreparedInputs, m.receipt.value.previous, PreparedNow(m))))) else None
    case RequirePrepared => When(MayFinish(c, m), m)
    case Register(name) => When(name !in m.registered, m.(registered := m.registered + {name}))
    case AllowSudo(name) =>
      if name in c.wheel then When(name !in m.sudoers, m.(sudoers := m.sudoers + {name})) else Some(m)
    case MapAccount(name) => Some(m.(entries := m.entries[name := GUARD]))
    case CommitPending =>
      if m.receipt.Some? && m.receipt.value.inputs == PreparedNow(m)
      then Some(m.(receipt := Some(m.receipt.value.(phase := PendingSession)))) else None
    case RequirePending => When(Enrolled(c, m), m)
    case UnmapAccount(name) =>
      if MappingOf(c, m, name).seuser == GUARD_USER
      then When(name in m.entries, m.(entries := m.entries - {name})) else Some(m)
    case RequireRestored(name) =>
      When(m.receipt.Some? && name in m.receipt.value.previous
           && MappingOf(c, m, name) == m.receipt.value.previous[name], m)
    case CommitUnenrolled =>
      if m.receipt.Some? then Some(m.(receipt := Some(m.receipt.value.(phase := Unenrolled)))) else None
  }

  /** The machine after all the steps, or `None` when one raises. */
  function Final(c: Config, m: Machine, steps: seq<Step>): Option<Machine>
    decreases |steps|
  {
    if steps == [] then Some(m)
    else
      var next := Perform(c, m, steps[0]);
      if next.None? then None else Final(c, next.value, steps[1..])
  }

  /** The machine where an attempt stops: after all the steps, or where the first one raises. */
  function Reached(c: Config, m: Machine, steps: seq<Step>): Machine
    decreases |steps|
  {
    if steps == [] then m
    else
      var next := Perform(c, m, steps[0]);
      if next.None? then m else Reached(c, next.value, steps[1..])
  }

  // ---------------------------------------------------------------- the commands

  /** A tree is created empty-handed and then filled. */
  function Building(t: TreeName): seq<Step> {
    [Begin(t), Fill(t)]
  }

  const DISCARDING: seq<Step> := [Discard(Ordinary), Discard(Source), Discard(Desktop), Discard(Admin)]
  const POLICY: seq<Step> :=
    [TakeSnapshot, LoadAttribute(Empty)] + Building(Ordinary)
    + [LoadAttribute(Closed), DefineUser(GUARD_USER), DefineUser("greyward_admin_u")]
  const CLOSURE: seq<Step> :=
    Building(Source) + (Building(Desktop) + ([AddAccounts] + (Building(Admin) + [CommitPrepared])))

  /** An existing context file is only compared; a missing one is written, made readable, labelled. */
  function ContextSteps(m: Machine): seq<Step> {
    if m.context.NoContext? then [OpenContext, FillContext, ReadableContext, LabelContext] else [RequireContext]
  }

  function Assembly(m: Machine): seq<Step> {
    POLICY + ContextSteps(m) + CLOSURE
  }

  function Registering(accounts: seq<Name>): seq<Step> {
    if accounts == [] then [] else [Register(accounts[0]), AllowSudo(accounts[0])] + Registering(accounts[1..])
  }

  function Mapped(accounts: seq<Name>): seq<Step> {
    if accounts == [] then [] else [MapAccount(accounts[0])] + Mapped(accounts[1..])
  }

  function Finishing(c: Config): seq<Step> {
    [RequirePrepared] + Registering(c.accounts) + Mapped(c.accounts) + [CommitPending, RequirePending]
  }

  function Restoring(accounts: seq<Name>): seq<Step> {
    if accounts == [] then [] else [UnmapAccount(accounts[0]), RequireRestored(accounts[0])] + Restoring(accounts[1..])
  }

  datatype Command = Prepare | Check | Rollback

  /** What `prepare` does up to the prepared inputs. */
  function Preparation(m: Machine): seq<Step> {
    if m.receipt.None? then [RequireFresh, CommitPreparing] + Assembly(m)
    else [RequirePreparing] + DISCARDING + Assembly(m)
  }

  function Program(c: Config, m: Machine, command: Command): seq<Step> {
    match command
    case Check => [RequirePending]
    case Rollback => Restoring(c.accounts) + [CommitUnenrolled]
    case Prepare =>
      if m.receipt.None? || m.receipt.value.phase.Preparing? then Preparation(m) + Finishing(c)
      else if m.receipt.value.phase.PreparedInputs? then Finishing(c)
      else [RequirePending]
  }

  /** An attempt runs a command for at most so many steps. */
  datatype Attempt = Attempt(command: Command, steps: nat)

  function Taken(steps: seq<Step>, count: nat): seq<Step> {
    if count < |steps| then steps[..count] else steps
  }

  function After(c: Config, start: Machine, attempts: seq<Attempt>): Machine {
    if attempts == [] then start
    else
      var m, a := After(c, start, attempts[..|attempts| - 1]), attempts[|attempts| - 1];
      Reached(c, m, Taken(Program(c, m, a.command), a.steps))
  }

  /** A machine before its first attempt. */
  ghost predicate Untouched(c: Config, m: Machine) {
    && c.accounts != [] && (forall i, j | 0 <= i < j < |c.accounts| :: c.accounts[i] != c.accounts[j])
    && m.receipt.None? && m.snapshot.None? && m.context.NoContext? && m.registered == {}
    && NoTrees(m)
    && m.policy.attribute.Undefined?
    && (forall u <- USERS :: u in m.policy.users ==> m.policy.users[u] == USERS[u])
    && (forall a <- c.accounts :: MappingOf(c, m, a).seuser != GUARD_USER && a !in m.sudoers)
  }

  // ---------------------------------------------------------------- what always holds

  /** The policy is as it was found, or the snapshot of how it was found is kept. */
  ghost predicate PolicyKept(start: Machine, m: Machine) {
    && (m.snapshot.None? ==> m.policy == start.policy)
    && (m.snapshot.Some? ==> m.snapshot.value == start.policy)
    && m.policy.rest == start.policy.rest && m.policy.users + USERS == start.policy.users + USERS
    && (forall u <- USERS :: u in m.policy.users ==> m.policy.users[u] == USERS[u])
  }

  /** Nothing outside the preparation has happened. */
  ghost predicate Unmapped(start: Machine, m: Machine) {
    m.entries == start.entries && m.registered == {} && m.sudoers == start.sudoers
  }

  ghost predicate InPreparation(c: Config, start: Machine, m: Machine) {
    InPhase(m, Preparing) && m.receipt.value.inputs == None && m.receipt.value.previous == Present(c, start)
    && Unmapped(start, m) && PolicyKept(start, m)
  }

  ghost predicate BeyondPreparation(c: Config, start: Machine, m: Machine) {
    && m.receipt.Some? && !m.receipt.value.phase.Preparing?
    && m.receipt.value.previous == Present(c, start)
    && PolicyKept(start, m)
    && (forall a <- m.registered :: a in c.accounts)
    && (!m.receipt.value.phase.Unenrolled? ==>
          && m.receipt.value.inputs == Some(Inputs(DesktopFor(Present(c, start)), AdminFor(Present(c, start))))
          && PreparedNow(m) == m.receipt.value.inputs)
    && (InPhase(m, PreparedInputs) && m.registered == {} ==> Unmapped(start, m))
    && (forall n <- m.entries ::
          (n in c.accounts && m.entries[n] == GUARD) || (n in start.entries && m.entries[n] == start.entries[n]))
    && (forall n <- start.entries :: n !in c.accounts ==> n in m.entries)
  }

  ghost predicate Inv(c: Config, start: Machine, m: Machine) {
    m == start || InPreparation(c, start, m) || BeyondPreparation(c, start, m)
  }
}
