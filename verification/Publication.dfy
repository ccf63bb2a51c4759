/** What the triggers on the workflow tables keep, over any sequence of accepted row operations. */
module Publication {
  import opened Wrappers

  type Id = nat

  /** Everything else in the row is in its content. */
  datatype Version = Version(template: Id, content: string, publishedAt: Option<int>)

  datatype Template = Template(owner: Option<Id>, key: string, draft: Option<Id>, published: Option<Id>)

  datatype State = State(
    revisions: map<Id, string>, versions: map<Id, Version>, bindings: set<(Id, Id)>, templates: map<Id, Template>)

  datatype Op =
    | InsertRevision(id: Id, content: string)
    | UpdateRevision(id: Id, content: string)
    | DeleteRevision(id: Id)
    | InsertVersion(id: Id, version: Version)
    | UpdateVersion(id: Id, newId: Id, version: Version)
    | DeleteVersion(id: Id)
    | InsertBinding(bound: Id, revision: Id)
    | UpdateBinding(stored: (Id, Id), replacement: (Id, Id))
    | DeleteBinding(binding: (Id, Id))
    | InsertTemplate(id: Id, template: Template)
    | UpdateTemplate(id: Id, newId: Id, template: Template)
    | DeleteTemplate(id: Id)

  // ------------------------------------------------------------------ the triggers

  predicate Published(s: State, v: Id) {
    v in s.versions && s.versions[v].publishedAt.Some?
  }

  predicate Unpublished(s: State, v: Id) {
    v in s.versions && s.versions[v].publishedAt.None?
  }

  /** Null, or a version of this template that is published, or for the draft is not. */
  predicate PointersAllowed(s: State, id: Id, t: Template) {
    && (t.draft.Some? ==> Unpublished(s, t.draft.value) && s.versions[t.draft.value].template == id)
    && (t.published.Some? ==> Published(s, t.published.value) && s.versions[t.published.value].template == id)
  }

  predicate IdentityKept(before: Template, after: Template) {
    before.owner == after.owner && before.key == after.key
  }

  // ------------------------------------------------------------------ the foreign keys

  predicate VersionReferenced(s: State, v: Id) {
    || (exists b | b in s.bindings :: b.0 == v)
    || (exists t | t in s.templates :: s.templates[t].draft == Some(v) || s.templates[t].published == Some(v))
  }

  predicate TemplateReferenced(s: State, t: Id) {
    exists v | v in s.versions :: s.versions[v].template == t
  }

  /** The row is there, its trigger lets the change pass, and no key is violated. */
  predicate Accepted(s: State, op: Op) {
    match op
    case InsertRevision(id, _) => id !in s.revisions
    case UpdateRevision(_, _) => false
    case DeleteRevision(_) => false
    case InsertVersion(id, version) => id !in s.versions && version.template in s.templates
    case UpdateVersion(id, newId, version) =>
      && Unpublished(s, id) && version.template in s.templates
      && (newId != id ==> newId !in s.versions && !VersionReferenced(s, id))
    case DeleteVersion(id) => Unpublished(s, id) && !VersionReferenced(s, id)
    case InsertBinding(v, r) => Unpublished(s, v) && r in s.revisions && (v, r) !in s.bindings
    case UpdateBinding(_, _) => false
    case DeleteBinding(_) => false
    case InsertTemplate(id, t) => id !in s.templates && PointersAllowed(s, id, t)
    case UpdateTemplate(id, newId, t) =>
      && id in s.templates && PointersAllowed(s, newId, t) && IdentityKept(s.templates[id], t)
      && (newId != id ==> newId !in s.templates && !TemplateReferenced(s, id))
    case DeleteTemplate(id) => id in s.templates && !TemplateReferenced(s, id)
  }

  function Step(s: State, op: Op): State {
    if !Accepted(s, op) then s else
    match op
    case InsertRevision(id, content) => s.(revisions := s.revisions[id := content])
    case InsertVersion(id, version) => s.(versions := s.versions[id := version])
    case UpdateVersion(id, newId, version) => s.(versions := (s.versions - {id})[newId := version])
    case DeleteVersion(id) => s.(versions := s.versions - {id})
    case InsertBinding(v, r) => s.(bindings := s.bindings + {(v, r)})
    case InsertTemplate(id, t) => s.(templates := s.templates[id := t])
    case UpdateTemplate(id, newId, t) => s.(templates := (s.templates - {id})[newId := t])
    case DeleteTemplate(id) => s.(templates := s.templates - {id})
    case _ => s
  }

  function Run(s: State, ops: seq<Op>): State {
    if ops == [] then s else Step(Run(s, ops[..|ops| - 1]), ops[|ops| - 1])
  }

  const Empty := State(map[], map[], {}, map[])

  // ------------------------------------------------------------------ frozen publications

  function Bound(s: State, v: Id): set<Id> {
    set b | b in s.bindings && b.0 == v :: b.1
  }

  predicate BindingsHold(s: State) {
    forall b | b in s.bindings :: b.0 in s.versions && b.1 in s.revisions
  }

  lemma StepBindings(s: State, op: Op)
    requires BindingsHold(s)
    ensures BindingsHold(Step(s, op))
  {
  }

  lemma StepFrozen(s: State, op: Op, v: Id, r: Id)
    requires Published(s, v)
    ensures Published(Step(s, op), v) && Step(s, op).versions[v] == s.versions[v] && Bound(Step(s, op), v) == Bound(s, v)
    ensures r in s.revisions ==> r in Step(s, op).revisions && Step(s, op).revisions[r] == s.revisions[r]
  {
    if op.InsertBinding? && Accepted(s, op) {
      assert op.bound != v;
    }
  }

  /**
    Once a version is published, no sequence of row operations changes its row, the set of
    revisions bound to it, or the content of any of them.
   */
  lemma {:induction false} PublishedForGood(before: seq<Op>, after: seq<Op>, v: Id)
    requires Published(Run(Empty, before), v)
    ensures var s, t := Run(Empty, before), Run(Run(Empty, before), after);
      && Published(t, v) && t.versions[v] == s.versions[v]
      && Bound(t, v) == Bound(s, v)
      && forall r | r in Bound(s, v) :: r in s.revisions && r in t.revisions && t.revisions[r] == s.revisions[r]
    decreases |after|
  {
    var s := Run(Empty, before);
    ReachableBindings(before);
    if after != [] {
      var n := |after| - 1;
      PublishedForGood(before, after[..n], v);
      forall r: Id {
        StepFrozen(Run(s, after[..n]), after[n], v, r);
      }
    }
  }

  lemma {:induction false} ReachableBindings(ops: seq<Op>)
    ensures BindingsHold(Run(Empty, ops))
  {
    if ops != [] {
      ReachableBindings(ops[..|ops| - 1]);
      StepBindings(Run(Empty, ops[..|ops| - 1]), ops[|ops| - 1]);
    }
  }

  // ------------------------------------------------------------------ pointers

  predicate PublicationPointers(s: State) {
    forall id | id in s.templates && s.templates[id].published.Some? ::
      Published(s, s.templates[id].published.value) && s.versions[s.templates[id].published.value].template == id
  }

  lemma StepPointers(s: State, op: Op)
    requires PublicationPointers(s)
    ensures PublicationPointers(Step(s, op))
  {
    var t := Step(s, op);
    forall id | id in t.templates && t.templates[id].published.Some?
      ensures Published(t, t.templates[id].published.value) && t.versions[t.templates[id].published.value].template == id
    {
      var v := t.templates[id].published.value;
      if id in s.templates && s.templates[id] == t.templates[id] {
        StepFrozen(s, op, v, 0);
      }
    }
  }

  /** In every reachable state a template's published pointer names a published version of it. */
  lemma {:induction false} PublishedPointersAreTrue(ops: seq<Op>)
    ensures PublicationPointers(Run(Empty, ops))
  {
    if ops != [] {
      PublishedPointersAreTrue(ops[..|ops| - 1]);
      StepPointers(Run(Empty, ops[..|ops| - 1]), ops[|ops| - 1]);
    }
  }

  predicate DraftPointer(s: State, id: Id)
    requires id in s.templates
  {
    s.templates[id].draft.Some? ==>
      Unpublished(s, s.templates[id].draft.value) && s.versions[s.templates[id].draft.value].template == id
  }

  /** The pointed-to draft is published, or moved to another template, under the pointer. */
  predicate Undercuts(s: State, op: Op, id: Id)
    requires id in s.templates
  {
    && op.UpdateVersion? && Accepted(s, op) && s.templates[id].draft == Some(op.id)
    && (op.version.publishedAt.Some? || op.version.template != id)
  }

  /**
    The draft pointer is checked only when the template is written, so it can go stale: a
    step makes a true one false exactly when it publishes the draft or moves it away.
   */
  lemma DraftPointerBreaksExactly(s: State, op: Op, id: Id)
    requires id in s.templates && id in Step(s, op).templates && DraftPointer(s, id)
    ensures !DraftPointer(Step(s, op), id) <==> Undercuts(s, op, id)
  {
    if op.UpdateVersion? && Accepted(s, op) && s.templates[id].draft.Some? && op.newId != op.id {
      assert s.templates[id].draft.value != op.id;
    }
  }

  // ------------------------------------------------------------------ the other rows

  lemma StepKeepsRevisions(s: State, op: Op)
    ensures forall r | r in s.revisions :: r in Step(s, op).revisions && Step(s, op).revisions[r] == s.revisions[r]
    ensures s.bindings <= Step(s, op).bindings
  {
  }

  /** Revisions never change or go, and neither do bindings, published or not. */
  lemma {:induction false} RevisionsAreForGood(s: State, ops: seq<Op>)
    ensures forall r | r in s.revisions :: r in Run(s, ops).revisions && Run(s, ops).revisions[r] == s.revisions[r]
    ensures s.bindings <= Run(s, ops).bindings
  {
    if ops != [] {
      RevisionsAreForGood(s, ops[..|ops| - 1]);
      StepKeepsRevisions(Run(s, ops[..|ops| - 1]), ops[|ops| - 1]);
    }
  }

  /** The keys hold: bindings, versions and pointers name rows that are there. */
  ghost predicate KeysHold(s: State) {
    && (forall b | b in s.bindings :: b.0 in s.versions && b.1 in s.revisions)
    && (forall v | v in s.versions :: s.versions[v].template in s.templates)
    && (forall t | t in s.templates && s.templates[t].draft.Some? :: s.templates[t].draft.value in s.versions)
    && (forall t | t in s.templates && s.templates[t].published.Some? :: s.templates[t].published.value in s.versions)
  }

  lemma StepKeys(s: State, op: Op)
    requires KeysHold(s)
    ensures KeysHold(Step(s, op))
  {
    var t := Step(s, op);
    forall x | x in t.templates && t.templates[x].draft.Some? ensures t.templates[x].draft.value in t.versions {}
    forall x | x in t.templates && t.templates[x].published.Some? ensures t.templates[x].published.value in t.versions {}
  }

  lemma {:induction false} KeysAlwaysHold(ops: seq<Op>)
    ensures KeysHold(Run(Empty, ops))
  {
    if ops != [] {
      KeysAlwaysHold(ops[..|ops| - 1]);
      StepKeys(Run(Empty, ops[..|ops| - 1]), ops[|ops| - 1]);
    }
  }

  /** A template that is there all along keeps its owner and its key. */
  lemma {:induction false} IdentityIsForGood(s: State, ops: seq<Op>, id: Id)
    requires forall j | 0 <= j <= |ops| :: id in Run(s, ops[..j]).templates
    ensures id in s.templates && id in Run(s, ops).templates
    ensures Run(s, ops).templates[id].owner == s.templates[id].owner && Run(s, ops).templates[id].key == s.templates[id].key
  {
    assert ops[..0] == [] && ops[..|ops|] == ops;
    assert id in Run(s, ops[..0]).templates && id in Run(s, ops[..|ops|]).templates;
    if ops != [] {
      var rest := ops[..|ops| - 1];
      forall j | 0 <= j <= |rest| ensures id in Run(s, rest[..j]).templates {
        assert rest[..j] == ops[..j];
      }
      IdentityIsForGood(s, rest, id);
    }
  }

  // ------------------------------------------------------------------ what is let through

  predicate Bindable(s: State, v: Id, r: Id) {
    v in s.versions && s.versions[v].publishedAt == None && r in s.revisions && (v, r) !in s.bindings
  }

  lemma BoundExactly(s: State, v: Id, r: Id)
    ensures var t := Step(s, InsertBinding(v, r));
      t == if Bindable(s, v, r) then s.(bindings := s.bindings + {(v, r)}) else s
  {
  }

  /** Somebody has a key on the version. */
  predicate Held(s: State, v: Id) {
    || (exists r | r in s.revisions :: (v, r) in s.bindings)
    || (exists t | t in s.templates :: s.templates[t].draft == Some(v))
    || (exists t | t in s.templates :: s.templates[t].published == Some(v))
  }

  lemma HeldIs(s: State, v: Id)
    requires KeysHold(s)
    ensures Held(s, v) <==> VersionReferenced(s, v)
  {
    if b :| b in s.bindings && b.0 == v {
      assert b == (v, b.1) && b.1 in s.revisions;
    }
  }

  /** An unpublished version may be rewritten, and moved to a free identity or deleted if nobody holds it. */
  lemma VersionsChangeExactly(s: State, id: Id, newId: Id, version: Version)
    requires KeysHold(s)
    ensures var open := id in s.versions && s.versions[id].publishedAt == None;
      && Step(s, UpdateVersion(id, newId, version))
         == (if open && version.template in s.templates && (newId == id || (newId !in s.versions && !Held(s, id)))
             then s.(versions := (s.versions - {id})[newId := version]) else s)
      && Step(s, DeleteVersion(id)) == (if open && !Held(s, id) then s.(versions := s.versions - {id}) else s)
      && Step(s, InsertVersion(id, version))
         == (if id !in s.versions && version.template in s.templates then s.(versions := s.versions[id := version]) else s)
  {
    HeldIs(s, id);
  }

  /** The pointers a template may be written with: an open draft of its own, a published version of its own. */
  ghost predicate Pointable(s: State, id: Id, t: Template) {
    && (forall v | t.draft == Some(v) :: v in s.versions && s.versions[v].template == id && s.versions[v].publishedAt == None)
    && (forall v | t.published == Some(v) :: v in s.versions && s.versions[v].template == id && s.versions[v].publishedAt != None)
  }

  /** A template is rewritten under its owner and key, and moved or deleted if it has no versions. */
  lemma TemplatesChangeExactly(s: State, id: Id, newId: Id, t: Template)
    ensures var bare := forall v | v in s.versions :: s.versions[v].template != id;
      && Step(s, InsertTemplate(id, t)) == (if id !in s.templates && Pointable(s, id, t) then s.(templates := s.templates[id := t]) else s)
      && Step(s, UpdateTemplate(id, newId, t))
         == (if && id in s.templates && Pointable(s, newId, t)
                && s.templates[id].owner == t.owner && s.templates[id].key == t.key
                && (newId == id || (newId !in s.templates && bare))
             then s.(templates := (s.templates - {id})[newId := t]) else s)
      && Step(s, DeleteTemplate(id)) == (if id in s.templates && bare then s.(templates := s.templates - {id}) else s)
  {
    PointableIs(s, id, t);
    PointableIs(s, newId, t);
  }

  lemma PointableIs(s: State, id: Id, t: Template)
    ensures Pointable(s, id, t) <==> PointersAllowed(s, id, t)
  {
  }

  lemma RunOneMore(ops: seq<Op>, op: Op)
    ensures Run(Empty, ops + [op]) == Step(Run(Empty, ops), op)
  {
    assert (ops + [op])[..|ops|] == ops;
  }

  /** Four accepted operations from the empty tables that leave a draft pointer on a published version. */
  lemma DraftIsPublishedUnderPointer(id: Id, v: Id, content: string, owner: Option<Id>, key: string, at: int)
    ensures var bare := Template(owner, key, None, None);
      var drafted := [InsertTemplate(id, bare), InsertVersion(v, Version(id, content, None)), UpdateTemplate(id, id, bare.(draft := Some(v)))];
      var s, t := Run(Empty, drafted), Run(Empty, drafted + [UpdateVersion(v, v, Version(id, content, Some(at)))]);
      && id in s.templates && s.templates[id].draft == Some(v) && DraftPointer(s, id)
      && t.templates == s.templates && Published(t, v) && !DraftPointer(t, id)
  {
    var bare := Template(owner, key, None, None);
    var x, y, z := InsertTemplate(id, bare), InsertVersion(v, Version(id, content, None)), UpdateTemplate(id, id, bare.(draft := Some(v)));
    RunOneMore([], x);
    RunOneMore([x], y);
    RunOneMore([x, y], z);
    RunOneMore([x, y, z], UpdateVersion(v, v, Version(id, content, Some(at))));
    assert [] + [x] == [x] && [x] + [y] == [x, y] && [x, y] + [z] == [x, y, z];
  }

  // ------------------------------------------------------------------ the tables

  class Tables {
    var revisions: map<Id, string>
    var versions: map<Id, Version>
    var bindings: set<(Id, Id)>
    var templates: map<Id, Template>

    function View(): State
      reads this
    {
      State(revisions, versions, bindings, templates)
    }

    constructor ()
      ensures View() == Empty
    {
      revisions, versions, bindings, templates := map[], map[], {}, map[];
    }

    method WriteVersion(id: Id, newId: Id, version: Version) returns (ok: bool)
      modifies this`versions
      ensures View() == Step(old(View()), UpdateVersion(id, newId, version))
      ensures ok <==> Accepted(old(View()), UpdateVersion(id, newId, version))
    {
      if id !in versions || versions[id].publishedAt.Some? {
        return false;
      }
      ok := version.template in templates && (newId == id || (newId !in versions && !VersionReferenced(View(), id)));
      if ok {
        versions := versions - {id};
        versions := versions[newId := version];
      }
    }

    method RemoveVersion(id: Id) returns (ok: bool)
      modifies this`versions
      ensures View() == Step(old(View()), DeleteVersion(id))
      ensures ok <==> Accepted(old(View()), DeleteVersion(id))
    {
      if id !in versions || versions[id].publishedAt.Some? {
        return false;
      }
      ok := !VersionReferenced(View(), id);
      if ok {
        versions := versions - {id};
      }
    }

    method Bind(version: Id, revision: Id) returns (ok: bool)
      modifies this`bindings
      ensures View() == Step(old(View()), InsertBinding(version, revision))
      ensures ok <==> Accepted(old(View()), InsertBinding(version, revision))
    {
      if version !in versions || versions[version].publishedAt.Some? {
        return false;
      }
      ok := revision in revisions && (version, revision) !in bindings;
      if ok {
        bindings := bindings + {(version, revision)};
      }
    }

    method WriteTemplate(id: Id, newId: Id, template: Template) returns (ok: bool)
      modifies this`templates
      ensures View() == Step(old(View()), UpdateTemplate(id, newId, template))
      ensures ok <==> Accepted(old(View()), UpdateTemplate(id, newId, template))
    {
      if id !in templates {
        return false;
      }
      if template.draft.Some? {
        var draft := template.draft.value;
        if !(draft in versions && versions[draft].template == newId && versions[draft].publishedAt.None?) {
          return false;
        }
      }
      if template.published.Some? {
        var published := template.published.value;
        if !(published in versions && versions[published].template == newId && versions[published].publishedAt.Some?) {
          return false;
        }
      }
      if template.owner != templates[id].owner || template.key != templates[id].key {
        return false;
      }
      ok := newId == id || (newId !in templates && !TemplateReferenced(View(), id));
      if ok {
        templates := templates - {id};
        templates := templates[newId := template];
      }
    }
  }
}
