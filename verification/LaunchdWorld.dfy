/**
 * What the commands of an elevated macOS sequence do to launchd and to the installed files.
 * A command that fails never changes whether a service is enabled, but it may leave its target
 * loaded or running in any way, and a failed copy may leave any contents behind.
 */
module LaunchdWorld {
  import opened Wrappers

  type Identifier = string

  datatype Service = Service(enabled: bool, loaded: bool, running: bool)

  /** The files a sequence touches, by role; roles of different services never collide. */
  datatype Path =
    | Definition(id: Identifier)
    | Node(id: Identifier)
    | Cli(id: Identifier)
    | Records(id: Identifier)
    | SourceNode
    | StagedCli
    | StagedDefinition
    | StagedRecord
    | BackupNode
    | BackupCli
    | BackupDefinition

  datatype Op =
    | Disable(id: Identifier)
    | Enable(id: Identifier)
    | Bootout(id: Identifier)
    | Bootstrap(id: Identifier)
    | Kickstart(id: Identifier)
    | StopIdle(id: Identifier)
    | AwaitRemoved(id: Identifier)
    | AwaitReady(id: Identifier)
    | TestFile(path: Path)
    | MakeRuntime(id: Identifier)
    | CopyFile(source: Path, target: Path)
    | MoveFile(source: Path, target: Path)
    | RemoveFile(path: Path)
    | RemoveRuntime(id: Identifier)

  /** What a failed command leaves of its target. */
  datatype Residue = Residue(loaded: bool, running: bool, contents: Option<string>)

  /** One issued command, as the executor that issued it saw it. */
  datatype Event = Event(op: Op, ok: bool, residue: Residue)

  datatype World = World(services: map<Identifier, Service>, files: map<Path, string>)

  /** A service launchd holds no override for is enabled and not loaded. */
  function At(w: World, id: Identifier): Service {
    if id in w.services then w.services[id] else Service(true, false, false)
  }

  function FileAt(w: World, p: Path): Option<string> {
    if p in w.files then Some(w.files[p]) else None
  }

  function SetService(w: World, id: Identifier, s: Service): World {
    w.(services := w.services[id := s])
  }

  function SetFile(w: World, p: Path, contents: Option<string>): World {
    w.(files := match contents
                case Some(c) => w.files[p := c]
                case None => w.files - {p})
  }

  /** A wait that ended well found what it waited for: the service gone, or answering. */
  function Effect(w: World, op: Op): World {
    match op
    case Disable(id) => SetService(w, id, At(w, id).(enabled := false))
    case Enable(id) => SetService(w, id, At(w, id).(enabled := true))
    case Bootout(id) => SetService(w, id, At(w, id).(loaded := false, running := false))
    case Bootstrap(id) => SetService(w, id, At(w, id).(loaded := true, running := true))
    case Kickstart(id) => SetService(w, id, At(w, id).(running := true))
    case StopIdle(id) => SetService(w, id, At(w, id).(running := false))
    case AwaitRemoved(id) => SetService(w, id, At(w, id).(loaded := false, running := false))
    case AwaitReady(id) => SetService(w, id, At(w, id).(running := true))
    case TestFile(_) => w
    case MakeRuntime(_) => w
    case CopyFile(s, t) => SetFile(w, t, FileAt(w, s))
    case MoveFile(s, t) => SetFile(SetFile(w, t, FileAt(w, s)), s, None)
    case RemoveFile(p) => SetFile(w, p, None)
    case RemoveRuntime(id) => SetFile(SetFile(w, Node(id), None), Cli(id), None)
  }

  function FailedEffect(w: World, op: Op, left: Residue): World {
    match op
    case Disable(_) => w
    case Enable(_) => w
    case Bootout(id) => SetService(w, id, At(w, id).(loaded := left.loaded, running := left.running))
    case Bootstrap(id) => SetService(w, id, At(w, id).(loaded := left.loaded, running := left.running))
    case Kickstart(id) => SetService(w, id, At(w, id).(loaded := left.loaded, running := left.running))
    case StopIdle(id) => SetService(w, id, At(w, id).(loaded := left.loaded, running := left.running))
    case AwaitRemoved(_) => w
    case AwaitReady(_) => w
    case TestFile(_) => w
    case MakeRuntime(_) => w
    case CopyFile(_, t) => SetFile(w, t, left.contents)
    case MoveFile(_, _) => w
    case RemoveFile(_) => w
    case RemoveRuntime(id) => SetFile(w, Node(id), left.contents)
  }

  function Apply(w: World, e: Event): World {
    if e.ok then Effect(w, e.op) else FailedEffect(w, e.op, e.residue)
  }

  function ApplyAll(w: World, events: seq<Event>): World
    decreases |events|
  {
    if events == [] then w else ApplyAll(Apply(w, events[0]), events[1..])
  }

  lemma {:induction false} ApplyAllAppend(w: World, a: seq<Event>, b: seq<Event>)
    ensures ApplyAll(w, a + b) == ApplyAll(ApplyAll(w, a), b)
    decreases |a|
  {
    if a == [] {
      assert a + b == b;
    } else {
      assert (a + b)[0] == a[0] && (a + b)[1..] == a[1..] + b;
      ApplyAllAppend(Apply(w, a[0]), a[1..], b);
    }
  }
}
