/** Documents and their version history, with each service call taken as one step. */
module Documents {
  import opened OrderedMerge

  /** A payload field: left out, null, or a text. */
  datatype Field = Absent | Null | Text(text: string)

  datatype Payload = Payload(title: Field, content: Field, metadata: Option<string>)

  datatype Document = Document(title: string, content: string, format: string, metadata: Option<string>,
                               status: string, currentVersion: nat)

  datatype Version = Version(version: nat, title: string, content: string)

  /** `payload.x !== undefined && payload.x !== document.x` */
  predicate Changed(field: Field, current: string) {
    field != Absent && field != Text(current)
  }

  /** `payload.x ?? document.x` */
  function Resolve(field: Field, current: string): string {
    if field.Text? then field.text else current
  }

  /** The update says something else than the document, or says null. */
  predicate Bumps(p: Payload, d: Document) {
    Changed(p.title, d.title) || Changed(p.content, d.content)
  }

  /** The update gives the document another title or content. */
  predicate Rewrites(p: Payload, d: Document) {
    Resolve(p.title, d.title) != d.title || Resolve(p.content, d.content) != d.content
  }

  /** A new version is made for every rewrite, and besides only for a null field. */
  lemma BumpsIffRewritesOrNull(p: Payload, d: Document)
    ensures Bumps(p, d) <==> Rewrites(p, d) || p.title == Null || p.content == Null
  {
  }

  /** The document after an update. */
  function Updated(d: Document, p: Payload): Document {
    Document(Resolve(p.title, d.title), Resolve(p.content, d.content), d.format,
             if p.metadata.Some? then p.metadata else d.metadata, d.status,
             if Bumps(p, d) then d.currentVersion + 1 else d.currentVersion)
  }

  function Snapshot(d: Document): Version {
    Version(d.currentVersion, d.title, d.content)
  }

  /** The history after an update: a bump appends a snapshot of the new text. */
  function Extended(versions: seq<Version>, d: Document, p: Payload): seq<Version> {
    if Bumps(p, d) then versions + [Snapshot(Updated(d, p))] else versions
  }

  function Copy(source: Document): Document {
    Document(source.title + " (copy)", source.content, source.format, source.metadata, "active", 1)
  }

  /** A document agrees with its history: the versions run from one to the current one, and the
      newest is a snapshot of the live text. */
  ghost predicate Consistent(d: Document, versions: seq<Version>) {
    |versions| == d.currentVersion >= 1 && versions[|versions| - 1] == Snapshot(d) &&
    forall i | 0 <= i < |versions| :: versions[i].version == i + 1
  }

  /** The version says the same as its predecessor. */
  predicate Echo(versions: seq<Version>, i: nat)
    requires 0 < i < |versions|
  {
    versions[i].title == versions[i - 1].title && versions[i].content == versions[i - 1].content
  }

  ghost predicate NoEcho(versions: seq<Version>) {
    forall i | 0 < i < |versions| :: !Echo(versions, i)
  }

  /** An update keeps document and history consistent, and adds a version that repeats its
      predecessor exactly when it says null and rewrites nothing. */
  lemma UpdateKeepsConsistent(d: Document, versions: seq<Version>, p: Payload)
    requires Consistent(d, versions)
    ensures Consistent(Updated(d, p), Extended(versions, d, p))
    ensures NoEcho(Extended(versions, d, p)) <==>
              NoEcho(versions) && (Rewrites(p, d) || (p.title != Null && p.content != Null))
  {
    var more := Extended(versions, d, p);
    BumpsIffRewritesOrNull(p, d);
    assert forall i | 0 < i < |versions| :: Echo(versions, i) == Echo(more, i);
    if Bumps(p, d) {
      assert Echo(more, |versions|) <==> !Rewrites(p, d);
    }
  }

  /** Adjacent versions do not always differ: a null title makes a new version that says exactly
      what the one before it said. */
  lemma NullEchoes(d: Document)
    requires d.currentVersion == 1
    ensures Consistent(d, [Snapshot(d)]) && NoEcho([Snapshot(d)])
    ensures !NoEcho(Extended([Snapshot(d)], d, Payload(Null, Absent, None)))
  {
    UpdateKeepsConsistent(d, [Snapshot(d)], Payload(Null, Absent, None));
  }

  datatype Tables = Tables(documents: map<string, Document>, versions: map<string, seq<Version>>)

  ghost predicate Sound(t: Tables) {
    t.documents.Keys == t.versions.Keys &&
    forall id | id in t.documents :: Consistent(t.documents[id], t.versions[id])
  }

  ghost predicate NoEchoes(t: Tables) {
    forall id | id in t.versions :: NoEcho(t.versions[id])
  }

  ghost predicate KeepsHistory(was: Tables, now: Tables) {
    forall id | id in was.versions :: id in now.versions && was.versions[id] <= now.versions[id]
  }

  datatype Call =
    | CreateCall(id: string, title: string, content: Option<string>, format: Option<string>, metadata: Option<string>)
    | UpdateCall(id: string, payload: Payload)
    | RemoveCall(id: string)
    | DuplicateCall(id: string, newId: string)

  /** What a call makes of the tables; a call on a document that is not there changes nothing. */
  function Called(t: Tables, c: Call): Tables
    requires t.documents.Keys == t.versions.Keys
  {
    match c
    case CreateCall(id, title, content, format, metadata) =>
      var d := Document(title, if content.Some? then content.value else "",
                        if format.Some? then format.value else "markdown", metadata, "active", 1);
      if id in t.documents then t else Tables(t.documents[id := d], t.versions[id := [Snapshot(d)]])
    case UpdateCall(id, p) =>
      if id !in t.documents then t
      else Tables(t.documents[id := Updated(t.documents[id], p)],
                  t.versions[id := Extended(t.versions[id], t.documents[id], p)])
    case RemoveCall(id) =>
      if id !in t.documents then t
      else t.(documents := t.documents[id := t.documents[id].(status := "deleted")])
    case DuplicateCall(id, newId) =>
      if id !in t.documents || newId in t.documents then t
      else
        var copy := Copy(t.documents[id]);
        Tables(t.documents[newId := copy], t.versions[newId := [Snapshot(copy)]])
  }

  function AllCalled(t: Tables, calls: seq<Call>): (now: Tables)
    requires t.documents.Keys == t.versions.Keys
    ensures now.documents.Keys == now.versions.Keys
  {
    if calls == [] then t else Called(AllCalled(t, calls[..|calls| - 1]), calls[|calls| - 1])
  }

  predicate NeverNull(c: Call) {
    c.UpdateCall? ==> c.payload.title != Null && c.payload.content != Null
  }

  /** Storing one document with its history leaves the rest of the tables as they are. */
  lemma Stored(t: Tables, id: string, d: Document, versions: seq<Version>)
    requires Sound(t) && Consistent(d, versions)
    requires id in t.versions ==> t.versions[id] <= versions
    ensures var now := Tables(t.documents[id := d], t.versions[id := versions]);
            Sound(now) && KeepsHistory(t, now) && (NoEchoes(t) && NoEcho(versions) ==> NoEchoes(now))
  {
    hide Consistent, NoEcho;
  }

  class Store {
    var documents: map<string, Document>
    var versions: map<string, seq<Version>>

    ghost function State(): Tables
      reads this
    {
      Tables(documents, versions)
    }

    constructor ()
      ensures documents == map[] && versions == map[]
    {
      documents, versions := map[], map[];
    }

    method Create(id: string, title: string, content: Option<string>, format: Option<string>, metadata: Option<string>)
      requires Sound(State()) && id !in documents
      modifies this
      ensures Sound(State()) && KeepsHistory(old(State()), State()) && (old(NoEchoes(State())) ==> NoEchoes(State()))
      ensures var created := Document(title, if content.Some? then content.value else "",
                                      if format.Some? then format.value else "markdown", metadata, "active", 1);
              documents == old(documents)[id := created] &&
              versions == old(versions)[id := [Version(1, created.title, created.content)]]
    {
      ghost var was := State();
      var document := Document(title, if content.Some? then content.value else "",
                               if format.Some? then format.value else "markdown", metadata, "active", 1);
      documents := documents[id := document];
      versions := versions[id := [Version(1, document.title, document.content)]];
      Stored(was, id, document, [Version(1, document.title, document.content)]);
    }

    /** An update appends a snapshot of the new text exactly when it bumps the version; one that
        touches only the metadata leaves the history alone. */
    method Update(id: string, payload: Payload) returns (found: bool)
      requires Sound(State())
      modifies this
      ensures Sound(State()) && KeepsHistory(old(State()), State())
      ensures old(NoEchoes(State())) && payload.title != Null && payload.content != Null ==> NoEchoes(State())
      ensures found == (id in old(documents))
      ensures !found ==> State() == old(State())
      ensures found ==>
                var was := old(documents)[id];
                documents == old(documents)[id := Updated(was, payload)] &&
                versions == old(versions)[id := Extended(old(versions)[id], was, payload)]
      ensures found ==>
                var was, now := old(documents)[id], documents[id];
                var bumped := (payload.title != Absent && payload.title != Text(was.title)) ||
                              (payload.content != Absent && payload.content != Text(was.content));
                now == Document(
                  if payload.title.Text? then payload.title.text else was.title,
                  if payload.content.Text? then payload.content.text else was.content,
                  was.format, if payload.metadata.Some? then payload.metadata else was.metadata, was.status,
                  if bumped then was.currentVersion + 1 else was.currentVersion) &&
                versions[id] ==
                old(versions)[id] + if bumped then [Version(now.currentVersion, now.title, now.content)] else []
    {
      hide Consistent, NoEcho;
      if id !in documents {
        return false;
      }
      ghost var tables := State();
      var document := documents[id];
      ghost var was, history := document, versions[id];
      assert Consistent(was, history);
      var titleChanged := Changed(payload.title, document.title);
      var contentChanged := Changed(payload.content, document.content);
      document := document.(title := Resolve(payload.title, document.title));
      document := document.(content := Resolve(payload.content, document.content));
      document := document.(metadata := if payload.metadata.Some? then payload.metadata else document.metadata);
      if titleChanged || contentChanged {
        document := document.(currentVersion := document.currentVersion + 1);
      }
      documents := documents[id := document];
      if titleChanged || contentChanged {
        versions := versions[id := versions[id] + [Version(document.currentVersion, document.title, document.content)]];
      }
      assert document == Updated(was, payload);
      assert versions == tables.versions[id := Extended(history, was, payload)];
      UpdateKeepsConsistent(was, history, payload);
      Stored(tables, id, document, Extended(history, was, payload));
      found := true;
    }

    /** Deleting keeps the history. */
    method Remove(id: string) returns (found: bool)
      requires Sound(State())
      modifies this`documents
      ensures Sound(State()) && (old(NoEchoes(State())) ==> NoEchoes(State())) && found == (id in old(documents))
      ensures documents == if found then old(documents)[id := old(documents)[id].(status := "deleted")]
              else old(documents)
    {
      found := id in documents;
      if found {
        documents := documents[id := documents[id].(status := "deleted")];
      }
    }

    /** A copy starts its own history; the source and its history stay as they are. */
    method Duplicate(id: string, newId: string) returns (found: bool)
      requires Sound(State()) && newId !in documents
      modifies this
      ensures Sound(State()) && KeepsHistory(old(State()), State()) && (old(NoEchoes(State())) ==> NoEchoes(State()))
      ensures found == (id in old(documents))
      ensures !found ==> State() == old(State())
      ensures found ==>
                var copy := Copy(old(documents)[id]);
                documents == old(documents)[newId := copy] && versions == old(versions)[newId := [Snapshot(copy)]]
      ensures found ==>
                var source, copy := old(documents)[id], documents[newId];
                copy ==
                Document(source.title + " (copy)", source.content, source.format, source.metadata, "active", 1) &&
                versions[newId] == [Version(1, copy.title, copy.content)]
    {
      hide Consistent, NoEcho, NoEchoes, Sound;
      if id !in documents {
        return false;
      }
      var source := documents[id];
      Create(newId, source.title + " (copy)", Some(source.content), Some(source.format), source.metadata);
      found := true;
    }

    method Take(call: Call)
      requires Sound(State())
      modifies this
      ensures Sound(State()) && KeepsHistory(old(State()), State())
      ensures old(NoEchoes(State())) && NeverNull(call) ==> NoEchoes(State())
      ensures State() == Called(old(State()), call)
    {
      hide Consistent, NoEcho, NoEchoes, Sound;
      match call {
        case CreateCall(id, title, content, format, metadata) =>
          if id !in documents {
            Create(id, title, content, format, metadata);
          }
        case UpdateCall(id, payload) =>
          var found := Update(id, payload);
        case RemoveCall(id) =>
          var found := Remove(id);
        case DuplicateCall(id, newId) =>
          if newId !in documents {
            var found := Duplicate(id, newId);
          }
      }
    }

    /** Every sequence of calls leaves what the calls one after another make of the tables. It keeps
        every document consistent with its history and never rewrites or loses a version; unless an
        update says null, adjacent versions always differ. */
    method Serve(calls: seq<Call>)
      requires Sound(State())
      modifies this
      ensures Sound(State()) && KeepsHistory(old(State()), State())
      ensures old(NoEchoes(State())) && (forall i | 0 <= i < |calls| :: NeverNull(calls[i])) ==> NoEchoes(State())
      ensures State() == AllCalled(old(State()), calls)
    {
      assert State().documents.Keys == State().versions.Keys;
      hide NoEchoes, Sound, NeverNull, Called;
      for n := 0 to |calls|
        invariant Sound(State()) && KeepsHistory(old(State()), State())
        invariant old(NoEchoes(State())) && (forall i | 0 <= i < n :: NeverNull(calls[i])) ==> NoEchoes(State())
        invariant State() == AllCalled(old(State()), calls[..n])
      {
        assert calls[..n + 1][..n] == calls[..n];
        Take(calls[n]);
      }
      assert calls[..|calls|] == calls;
    }
  }
}
