/**
 What one scan of the X11 desktop yields, and the public objects an agent sees:
 descriptors, events and the view a peer rebuilds from them.
 */
module Desktop {
  import opened Prelude

  const MAX_EVENTS: nat := 1024
  const MAX_CLIENTS: nat := 1024
  const MAX_WORKSPACES: nat := 128

  datatype Rect = Rect(x: int, y: int, width: nat, height: nat)

  datatype ClientState =
    | Above | Below | Fullscreen | Hidden | MaximizedHorizontal
    | MaximizedVertical | DemandsAttention | Sticky | Shaded

  datatype ClientAction = Activate | Close | ChangeWorkspace | ChangeState | ChangeGeometry

  /** Everything in a client descriptor besides its identity. */
  datatype Facts = Facts(
    title: Option<string>,
    workspace: Option<nat>,
    frame: Option<Rect>,
    states: seq<ClientState>,
    actions: seq<ClientAction>)

  datatype Descriptor = Descriptor(id: nat, generation: nat, facts: Facts)
  datatype Record = Record(xid: nat, descriptor: Descriptor)
  datatype Workspace = Workspace(id: nat, name: Option<string>, workArea: Option<Rect>)

  datatype RawClient = RawClient(xid: nat, facts: Facts)
  datatype RawDesktop = RawDesktop(
    currentWorkspace: nat,
    workspaces: seq<Workspace>,
    clients: seq<RawClient>,
    active: Option<nat>)

  /** `None` is a scan that failed before the model was touched. */
  type Scan = Option<RawDesktop>

  datatype Model = Model(
    currentWorkspace: nat,
    workspaces: seq<Workspace>,
    clients: seq<Record>,
    active: Option<nat>)

  datatype EventKind =
    | AddedKind | ChangedKind | RemovedKind | ActiveKind | WorkspaceKind | ApplicationsKind

  datatype Event =
    | ClientAdded(added: Descriptor)
    | ClientChanged(changed: Descriptor)
    | ClientRemoved(removed: nat)
    | ActiveChanged(active: Option<nat>)
    | WorkspaceChanged(current: nat)
    | ApplicationsChanged

  datatype Envelope = Envelope(sequence: nat, event: Event)

  function Kind(event: Event): EventKind {
    match event
    case ClientAdded(_) => AddedKind
    case ClientChanged(_) => ChangedKind
    case ClientRemoved(_) => RemovedKind
    case ActiveChanged(_) => ActiveKind
    case WorkspaceChanged(_) => WorkspaceKind
    case ApplicationsChanged => ApplicationsKind
  }

  /** An empty subscription list stands for every kind. */
  predicate Wanted(kinds: seq<EventKind>, event: Event) {
    kinds == [] || Kind(event) in kinds
  }

  /** The guarantees `scan` establishes before it returns a desktop. */
  ghost predicate ScanOk(raw: RawDesktop) {
    && |raw.clients| <= MAX_CLIENTS
    && (forall i, j :: 0 <= i < j < |raw.clients| ==> raw.clients[i].xid != raw.clients[j].xid)
    && 1 <= |raw.workspaces| <= MAX_WORKSPACES
    && (forall i :: 0 <= i < |raw.workspaces| ==> raw.workspaces[i].id == i)
    && raw.currentWorkspace < |raw.workspaces|
    && (raw.active.Some? ==> HasXid(raw.clients, raw.active.value))
  }

  predicate HasXid(clients: seq<RawClient>, xid: nat) {
    exists i :: 0 <= i < |clients| && clients[i].xid == xid
  }

  /** The part of the desktop that events carry; order and names are not in it. */
  datatype View = View(clients: map<nat, Descriptor>, active: Option<nat>, workspace: nat)

  function Apply(view: View, event: Event): View {
    match event
    case ClientAdded(d) => view.(clients := view.clients[d.id := d])
    case ClientChanged(d) => view.(clients := view.clients[d.id := d])
    case ClientRemoved(id) => view.(clients := view.clients - {id})
    case ActiveChanged(a) => view.(active := a)
    case WorkspaceChanged(w) => view.(workspace := w)
    case ApplicationsChanged => view
  }

  function Fold(view: View, events: seq<Event>): View {
    if events == [] then view
    else Apply(Fold(view, events[..|events| - 1]), events[|events| - 1])
  }

  lemma {:induction false} FoldConcat(view: View, left: seq<Event>, right: seq<Event>)
    ensures Fold(view, left + right) == Fold(Fold(view, left), right)
    decreases |right|
  {
    if right == [] {
      assert left + right == left;
    } else {
      var n := |right| - 1;
      assert (left + right)[..|left| + n] == left + right[..n];
      FoldConcat(view, left, right[..n]);
    }
  }

  /** The peer-visible descriptors of a model, keyed by client identity. */
  function ClientMap(records: seq<Record>): map<nat, Descriptor> {
    if records == [] then map[]
    else
      var last := records[|records| - 1];
      ClientMap(records[..|records| - 1])[last.descriptor.id := last.descriptor]
  }

  function ViewOf(model: Model): View {
    View(ClientMap(model.clients), model.active, model.currentWorkspace)
  }

  ghost predicate DistinctIds(records: seq<Record>) {
    forall i, j :: 0 <= i < j < |records| ==> records[i].descriptor.id != records[j].descriptor.id
  }

  ghost predicate DistinctXids(records: seq<Record>) {
    forall i, j :: 0 <= i < j < |records| ==> records[i].xid != records[j].xid
  }

  lemma {:induction false} ClientMapDomain(records: seq<Record>)
    ensures forall id :: id in ClientMap(records) <==>
              exists i :: 0 <= i < |records| && records[i].descriptor.id == id
  {
    if records != [] {
      var n := |records| - 1;
      ClientMapDomain(records[..n]);
      forall id | id in ClientMap(records)
        ensures exists i :: 0 <= i < |records| && records[i].descriptor.id == id
      {
        if id == records[n].descriptor.id {
        } else {
          assert id in ClientMap(records[..n]);
        }
      }
    }
  }

  lemma {:induction false} ClientMapAt(records: seq<Record>, i: nat)
    requires DistinctIds(records) && i < |records|
    ensures records[i].descriptor.id in ClientMap(records)
    ensures ClientMap(records)[records[i].descriptor.id] == records[i].descriptor
  {
    if i < |records| - 1 {
      ClientMapAt(records[..|records| - 1], i);
    }
  }
}
