/** Snapshot identifiers and the objects they lead to. */
module SnapshotIds {
  import opened Options

  datatype Ref = Local(name: string) | Backup(namespace: string, name: string)

  const PREFIX := "backup:"

  function FormatBackup(namespace: string, name: string): string { PREFIX + namespace + "/" + name }

  /** Where the first slash is. */
  function Slash(s: string): (r: Option<nat>)
    ensures r.Some? ==> r.value < |s| && s[r.value] == '/' && '/' !in s[..r.value]
    ensures r.None? ==> '/' !in s
  {
    if s == [] then None
    else if s[0] == '/' then Some(0)
    else
      match Slash(s[1..])
      case None => None
      case Some(i) => assert s[..i + 1] == [s[0]] + s[1..][..i]; Some(i + 1)
  }

  function Parse(id: string): Ref {
    if PREFIX <= id && Slash(id[|PREFIX|..]).Some? then
      var rest := id[|PREFIX|..];
      var i := Slash(rest).value;
      Backup(rest[..i], rest[i + 1..])
    else Local(id)
  }

  /** The identifier the driver hands out for an object. */
  function IdOf(r: Ref): string {
    match r
    case Local(name) => name
    case Backup(namespace, name) => FormatBackup(namespace, name)
  }

  lemma {:induction false} SlashIsFirst(a: string, b: string)
    requires '/' !in a
    ensures Slash(a + "/" + b) == Some(|a|)
  {
    var s := a + "/" + b;
    if a != [] {
      assert s[0] == a[0] && s[1..] == a[1..] + "/" + b;
      SlashIsFirst(a[1..], b);
    }
  }

  /** An identifier leads back to its object exactly when the namespace has no slash, or, for a local
      snapshot, when its name does not itself read as a backup. */
  lemma IdsLeadBack(r: Ref)
    ensures Parse(IdOf(r)) == r <==>
      match r
      case Backup(namespace, _) => '/' !in namespace
      case Local(name) => !(PREFIX <= name && '/' in name[|PREFIX|..])
  {
    match r
    case Local(name) =>
      if PREFIX <= name && Slash(name[|PREFIX|..]).Some? {
        assert name[|PREFIX|..][Slash(name[|PREFIX|..]).value] in name[|PREFIX|..];
      }
    case Backup(namespace, name) =>
      var id := FormatBackup(namespace, name);
      assert id[|PREFIX|..] == namespace + "/" + name;
      if '/' !in namespace {
        SlashIsFirst(namespace, name);
      } else {
        ParseHasNoSlash(id);
      }
  }

  lemma ParseHasNoSlash(id: string)
    ensures Parse(id).Backup? ==> '/' !in Parse(id).namespace
  {
  }

  /** Parsing loses nothing: formatting what was parsed gives the identifier again, so no two identifiers meet. */
  lemma ParseKeepsAll(id: string)
    ensures IdOf(Parse(id)) == id
  {
    if Parse(id).Backup? {
      var rest := id[|PREFIX|..];
      var i := Slash(rest).value;
      assert rest == rest[..i] + "/" + rest[i + 1..];
      assert id == PREFIX + rest;
    }
  }

  /** An identifier is a backup's exactly when it is "backup:", a namespace, the first slash after it, and a name. */
  lemma ParseIff(id: string, namespace: string, name: string)
    ensures Parse(id) == Backup(namespace, name) <==> '/' !in namespace && id == "backup:" + namespace + "/" + name
  {
    ParseHasNoSlash(id);
    ParseKeepsAll(id);
    if '/' !in namespace {
      IdsLeadBack(Backup(namespace, name));
    }
  }

  /** Kubernetes object names have no colon, so they are never taken for backups. */
  lemma NamesAreLocal(name: string)
    requires ':' !in name
    ensures Parse(name) == Local(name)
  {
    if PREFIX <= name {
      PrefixHasColon(name);
      assert false;
    }
  }

  lemma PrefixHasColon(id: string)
    requires PREFIX <= id
    ensures ':' in id
  {
    assert id[6] == PREFIX[6];
  }
}

/** Deleting snapshots whose objects are held by finalizers. */
module SnapshotDeletion {
  import opened SnapshotIds
  import opened Replies

  /** Snapshots and backups of the host, by identifier; true while waiting for finalizers. */
  datatype Store = Store(locals: map<string, bool>, backups: map<(string, string), bool>)

  /** Objects being deleted may go; nothing comes. */
  predicate Settles(s: Store, t: Store) {
    && t.locals.Keys <= s.locals.Keys
    && (forall n :: n in t.locals && n in s.locals ==> t.locals[n] == s.locals[n])
    && (forall n :: n in s.locals && n !in t.locals ==> s.locals[n])
    && t.backups.Keys <= s.backups.Keys
    && (forall n :: n in t.backups && n in s.backups ==> t.backups[n] == s.backups[n])
    && (forall n :: n in s.backups && n !in t.backups ==> s.backups[n])
  }

  datatype Deletion = Accepted | Missing | Failed

  class SnapshotApi {
    const faulty: bool
    var store: Store

    constructor (faulty: bool, store: Store)
      ensures this.faulty == faulty && this.store == store
    {
      this.faulty, this.store := faulty, store;
    }

    method Interfere()
      modifies this
      ensures Settles(old(store), store)
    {
      var t: Store := *;
      if Settles(store, t) {
        store := t;
      }
    }

    method DeleteLocal(name: string) returns (r: Deletion, ghost mid: Store)
      modifies this
      ensures Settles(old(store), mid)
      ensures store == mid || (name in mid.locals && store == mid.(locals := mid.locals[name := true]))
      ensures r == Missing ==> name !in mid.locals
      ensures r == Accepted ==> name in mid.locals && store.locals[name]
      ensures !faulty ==> r == if name in mid.locals then Accepted else Missing
    {
      Interfere();
      mid := store;
      var fails: bool, lost: bool := *, *;
      if faulty && fails {
        return Failed, mid;
      }
      if name !in store.locals {
        return Missing, mid;
      }
      store := store.(locals := store.locals[name := true]);
      r := if faulty && lost then Failed else Accepted;
    }

    method DeleteBackup(key: (string, string)) returns (r: Deletion, ghost mid: Store)
      modifies this
      ensures Settles(old(store), mid)
      ensures store == mid || (key in mid.backups && store == mid.(backups := mid.backups[key := true]))
      ensures r == Missing ==> key !in mid.backups
      ensures r == Accepted ==> key in mid.backups && store.backups[key]
      ensures !faulty ==> r == if key in mid.backups then Accepted else Missing
    {
      Interfere();
      mid := store;
      var fails: bool, lost: bool := *, *;
      if faulty && fails {
        return Failed, mid;
      }
      if key !in store.backups {
        return Missing, mid;
      }
      store := store.(backups := store.backups[key := true]);
      r := if faulty && lost then Failed else Accepted;
    }

    /** Somebody creates a snapshot or a backup; one that is there is left alone. */
    method Create(r: Ref)
      modifies this
      ensures !faulty ==> Present(store, r)
      ensures forall x :: x != r && Present(store, x) ==> Present(old(store), x)
      ensures forall x :: x != r && Live(store, x) ==> Live(old(store), x)
    {
      Interfere();
      var fails: bool := *;
      if (faulty && fails) || Present(store, r) {
        return;
      }
      match r
      case Local(name) => store := store.(locals := store.locals[name := false]);
      case Backup(namespace, name) => store := store.(backups := store.backups[(namespace, name) := false]);
    }
  }

  predicate Present(s: Store, r: Ref) {
    match r
    case Local(name) => name in s.locals
    case Backup(namespace, name) => (namespace, name) in s.backups
  }

  /** The object is there and nobody asked for its deletion. */
  predicate Live(s: Store, r: Ref) {
    match r
    case Local(name) => name in s.locals && !s.locals[name]
    case Backup(namespace, name) => (namespace, name) in s.backups && !s.backups[(namespace, name)]
  }

  method DeleteSnapshot(api: SnapshotApi, id: string) returns (r: Reply)
    modifies api
    ensures id == "" ==> r == InvalidArgument
    // A local snapshot: OK means it is gone, so an accepted deletion that is not finished is not a success.
    ensures r == OK && Parse(id).Local? ==> id !in api.store.locals
    ensures Live(old(api.store), Parse(id)) && Parse(id).Local? ==> r != OK
    // A backup: OK means its deletion was accepted.
    ensures r == OK ==> !Live(api.store, Parse(id))
    // With calls answered the object is gone or asked to go, and a local one is answered OK exactly when it is gone.
    ensures !api.faulty && id != "" ==> !Live(api.store, Parse(id))
    ensures !api.faulty && id != "" && Parse(id).Local? ==> (r == OK <==> id !in api.store.locals)
    ensures !api.faulty && id != "" ==> r in {OK, Internal}
    // Once gone, every call without failures is OK.
    ensures !api.faulty && id != "" && Parse(id).Local? && id !in old(api.store).locals ==> r == OK && id !in api.store.locals
    ensures !api.faulty && id != "" && Parse(id).Backup? ==> r == OK
    // No other object is asked to go.
    ensures forall x :: Live(old(api.store), x) && x != Parse(id) ==> Live(api.store, x)
    // Nothing comes, and nothing comes back.
    ensures forall x :: Present(api.store, x) ==> Present(old(api.store), x)
    ensures forall x :: Live(api.store, x) ==> Live(old(api.store), x)
  {
    if id == "" {
      return InvalidArgument;
    }
    var gone;
    ghost var mid;
    match Parse(id)
    case Backup(namespace, name) =>
      gone, mid := api.DeleteBackup((namespace, name));
      r := if gone == Failed then Internal else OK;
    case Local(name) =>
      gone, mid := api.DeleteLocal(name);
      r := if gone == Missing then OK else Internal;
  }

  datatype Step = Make(ref: Ref) | Drop(id: string)

  /** The snapshot is not created again after step i. */
  ghost predicate NotAgain(steps: seq<Step>, i: nat, n: nat, ref: Ref)
    requires n <= |steps|
  {
    forall k :: i < k < n ==> steps[k] != Make(ref)
  }

  /** Step i was a deletion answered OK, and nobody created the object again before step n. */
  ghost predicate StaysDeleted(steps: seq<Step>, replies: seq<Reply>, i: nat, n: nat)
    requires i < |replies| <= |steps| && n <= |steps|
  {
    steps[i].Drop? && replies[i] == OK && NotAgain(steps, i, n, Parse(steps[i].id))
  }

  method OneStep(api: SnapshotApi, step: Step) returns (r: Reply)
    modifies api
    ensures forall x :: step != Make(x) ==>
      (Present(api.store, x) ==> Present(old(api.store), x)) && (Live(api.store, x) ==> Live(old(api.store), x))
    ensures step.Drop? && r == OK ==>
      step.id != "" && !Live(api.store, Parse(step.id)) && (Parse(step.id).Local? ==> !Present(api.store, Parse(step.id)))
    ensures !api.faulty && step.Drop? && step.id != "" ==>
      && !Live(api.store, Parse(step.id))
      && (Parse(step.id).Local? && !Present(old(api.store), Parse(step.id)) ==> r == OK)
      && (Parse(step.id).Backup? ==> r == OK)
    ensures !api.faulty && step.Make? ==> Present(api.store, step.ref)
  {
    r := OK;
    match step {
      case Make(ref) => api.Create(ref);
      case Drop(id) => r := DeleteSnapshot(api, id);
    }
  }

  /** Step i asks for a deletion, and nobody created the object again before step n. */
  ghost predicate Asked(steps: seq<Step>, i: nat, n: nat)
    requires i < |steps| && n <= |steps|
  {
    steps[i].Drop? && steps[i].id != "" && NotAgain(steps, i, n, Parse(steps[i].id))
  }

  /**
   * Any sequence of creations and deletions: whatever fails, an object whose deletion was answered OK is not
   * there alive until somebody creates it again, and without failures a deletion answered OK is answered OK
   * every time it is repeated before that.
   */
  method AnyRun(api: SnapshotApi, steps: seq<Step>) returns (replies: seq<Reply>)
    modifies api
    ensures |replies| == |steps|
    ensures forall i :: 0 <= i < |steps| && StaysDeleted(steps, replies, i, |steps|) ==>
      && !Live(api.store, Parse(steps[i].id))
      && (Parse(steps[i].id).Local? ==> !Present(api.store, Parse(steps[i].id)))
    ensures !api.faulty ==>
      forall i, j :: 0 <= i < j < |steps| && steps[j] == steps[i] && StaysDeleted(steps, replies, i, j) ==> replies[j] == OK
    ensures !api.faulty ==> forall i :: 0 <= i < |steps| && Asked(steps, i, |steps|) ==> !Live(api.store, Parse(steps[i].id))
  {
    replies := [];
    for n := 0 to |steps|
      invariant |replies| == n
      invariant forall i :: 0 <= i < n && steps[i] == Drop("") ==> replies[i] != OK
      invariant forall i :: 0 <= i < n && StaysDeleted(steps, replies, i, n) ==>
        && !Live(api.store, Parse(steps[i].id))
        && (Parse(steps[i].id).Local? ==> !Present(api.store, Parse(steps[i].id)))
      invariant !api.faulty ==> forall i :: 0 <= i < n && Asked(steps, i, n) ==> !Live(api.store, Parse(steps[i].id))
      invariant !api.faulty ==>
        forall i, j :: 0 <= i < j < n && steps[j] == steps[i] && StaysDeleted(steps, replies, i, j) ==> replies[j] == OK
    {
      var r;
      assert forall i :: 0 <= i < n && Asked(steps, i, n + 1) ==> Asked(steps, i, n);
      r := OneStep(api, steps[n]);
      ghost var before := replies;
      replies := replies + [r];
      forall i | 0 <= i < n && StaysDeleted(steps, replies, i, n + 1)
        ensures StaysDeleted(steps, before, i, n) && steps[n] != Make(Parse(steps[i].id))
      {
      }
      forall i, j | 0 <= i < j <= n && StaysDeleted(steps, replies, i, j)
        ensures StaysDeleted(steps, before, i, j)
      {
      }
    }
  }
}

/** Listing snapshots page by page. */
module SnapshotListing {
  import opened Options
  import opened SnapshotIds

  datatype Status = Status(size: int, ready: bool)

  datatype Snapshot = Snapshot(name: string, labelled: bool, source: Option<string>, status: Option<Status>)

  datatype RemoteBackup = RemoteBackup(namespace: string, name: string, sourceLabel: Option<string>, status: Status)

  datatype Entry = Entry(id: string, source: string, status: Status)

  /** Empty strings are filters not given; no token is the first page. */
  datatype Request = Request(maxEntries: int, token: Option<nat>, snapshotId: string, sourceId: string)

  predicate ShouldInclude(s: Snapshot, req: Request) {
    && s.labelled
    && (req.snapshotId != "" ==> s.name == req.snapshotId)
    && (req.sourceId != "" ==> s.source == Some(req.sourceId))
  }

  predicate Convertible(s: Snapshot) { s.name != "" && s.source.Some? && s.source.value != "" }

  /** The driver reads the status of every snapshot it converts without asking whether there is one. */
  predicate Readable(items: seq<Snapshot>, req: Request) {
    forall s :: s in items && ShouldInclude(s, req) && Convertible(s) ==> s.status.Some?
  }

  /** None when the snapshot has no name or no source. */
  function Convert(s: Snapshot): Option<Entry>
    requires Convertible(s) ==> s.status.Some?
  {
    if Convertible(s) then Some(Entry(s.name, s.source.value, s.status.value)) else None
  }

  function Selected(items: seq<Snapshot>, req: Request): seq<Entry>
    requires Readable(items, req)
  {
    if items == [] then []
    else
      var init, last := items[..|items| - 1], items[|items| - 1];
      if ShouldInclude(last, req) && Convert(last).Some? then Selected(init, req) + [Convert(last).value]
      else Selected(init, req)
  }

  method ProcessHostSnapshots(items: seq<Snapshot>, req: Request) returns (entries: seq<Entry>)
    requires Readable(items, req)
    ensures entries == Selected(items, req)
    ensures |entries| <= |items|
  {
    entries := [];
    for i := 0 to |items|
      invariant entries == Selected(items[..i], req)
      invariant |entries| <= i
    {
      assert items[..i + 1][..i] == items[..i];
      if !ShouldInclude(items[i], req) {
        continue;
      }
      var entry := Convert(items[i]);
      if entry.None? {
        continue;
      }
      entries := entries + [entry.value];
    }
    assert items[..|items|] == items;
  }

  /** The identifier filter does not apply to backups. */
  predicate ShouldIncludeBackup(b: RemoteBackup, req: Request) {
    b.sourceLabel.Some? && (req.sourceId != "" ==> b.sourceLabel.value == req.sourceId)
  }

  function ConvertBackup(b: RemoteBackup): Option<Entry> {
    if b.name == "" || b.sourceLabel.None? || b.sourceLabel.value == "" then None
    else Some(Entry(FormatBackup(b.namespace, b.name), b.sourceLabel.value, b.status))
  }

  function SelectedBackups(items: seq<RemoteBackup>, req: Request): seq<Entry> {
    if items == [] then []
    else
      var init, last := items[..|items| - 1], items[|items| - 1];
      if ShouldIncludeBackup(last, req) && ConvertBackup(last).Some? then
        SelectedBackups(init, req) + [ConvertBackup(last).value]
      else SelectedBackups(init, req)
  }

  method ProcessHostBackups(items: seq<RemoteBackup>, req: Request) returns (entries: seq<Entry>)
    ensures entries == SelectedBackups(items, req)
  {
    entries := [];
    for i := 0 to |items|
      invariant entries == SelectedBackups(items[..i], req)
    {
      assert items[..i + 1][..i] == items[..i];
      var entry := ConvertBackup(items[i]);
      if ShouldIncludeBackup(items[i], req) && entry.Some? {
        entries := entries + [entry.value];
      }
    }
    assert items[..|items|] == items;
  }

  /** One page of the API server's list and the token of the next one. */
  function Page(items: seq<Snapshot>, start: nat, limit: nat): (seq<Snapshot>, Option<nat>)
    requires start <= |items|
  {
    if limit == 0 || start + limit >= |items| then (items[start..], None)
    else (items[start..start + limit], Some(start + limit))
  }

  function Start(req: Request): nat { if req.token.Some? then req.token.value else 0 }

  /** One ListSnapshots call; None is a refused request.  `local` of the entries are local snapshots. */
  method ListSnapshots(items: seq<Snapshot>, backups: Option<seq<RemoteBackup>>, req: Request)
    returns (entries: Option<seq<Entry>>, next: Option<nat>, local: nat)
    requires Readable(items, req) && Start(req) <= |items|
    ensures entries.None? <==> req.maxEntries < 0
    ensures entries.Some? ==>
      && local <= |entries.value|
      && next == Page(items, Start(req), req.maxEntries).1
      && entries.value[..local] == Selected(Page(items, Start(req), req.maxEntries).0, req)
      && entries.value[local..] == (if backups.None? then [] else SelectedBackups(backups.value, req))
      && (req.maxEntries > 0 ==> local <= req.maxEntries)
      && (req.sourceId != "" ==> forall e :: e in entries.value ==> e.source == req.sourceId)
  {
    if req.maxEntries < 0 {
      return None, None, 0;
    }
    var page := Page(items, Start(req), req.maxEntries);
    var snaps := ProcessHostSnapshots(page.0, req);
    var remote: seq<Entry> := [];
    if backups.Some? {
      remote := ProcessHostBackups(backups.value, req);
      SelectedBackupsMatch(backups.value, req);
    }
    SelectedMatch(page.0, req);
    entries, next, local := Some(snaps + remote), page.1, |snaps|;
  }

  lemma {:induction false} SelectedMatch(items: seq<Snapshot>, req: Request)
    requires Readable(items, req)
    ensures forall e :: e in Selected(items, req) ==>
      && (req.sourceId != "" ==> e.source == req.sourceId)
      && (req.snapshotId != "" ==> e.id == req.snapshotId)
  {
    if items != [] {
      SelectedMatch(items[..|items| - 1], req);
    }
  }

  lemma {:induction false} SelectedBackupsMatch(items: seq<RemoteBackup>, req: Request)
    ensures forall e :: e in SelectedBackups(items, req) ==> req.sourceId != "" ==> e.source == req.sourceId
  {
    if items != [] {
      SelectedBackupsMatch(items[..|items| - 1], req);
    }
  }

  /** The entries are those of the labelled snapshots that have name and source and pass the filters given. */
  lemma {:induction false} SelectedIff(items: seq<Snapshot>, req: Request, e: Entry)
    requires Readable(items, req)
    ensures e in Selected(items, req) <==>
      exists s :: s in items && s.labelled && s.name != "" && s.source.Some? && s.source.value != "" && s.status.Some?
                  && (req.snapshotId == "" || s.name == req.snapshotId)
                  && (req.sourceId == "" || s.source.value == req.sourceId)
                  && e == Entry(s.name, s.source.value, s.status.value)
  {
    if items != [] {
      var init, last := items[..|items| - 1], items[|items| - 1];
      assert forall s :: s in items <==> s in init || s == last;
      SelectedIff(init, req, e);
    }
  }

  /** Backups need a name and a source label; only the filter on the source applies to them. */
  lemma {:induction false} SelectedBackupsIff(items: seq<RemoteBackup>, req: Request, e: Entry)
    ensures e in SelectedBackups(items, req) <==>
      exists b :: b in items && b.name != "" && b.sourceLabel.Some? && b.sourceLabel.value != ""
                  && (req.sourceId == "" || b.sourceLabel.value == req.sourceId)
                  && e == Entry("backup:" + b.namespace + "/" + b.name, b.sourceLabel.value, b.status)
  {
    if items != [] {
      var init, last := items[..|items| - 1], items[|items| - 1];
      assert forall b :: b in items <==> b in init || b == last;
      SelectedBackupsIff(init, req, e);
    }
  }

  /** What an entry's identifier leads to when it is sent back, say to delete the snapshot, is an object of the
      list with the source the entry names. */
  ghost predicate LeadsBack(items: seq<Snapshot>, backups: seq<RemoteBackup>, e: Entry) {
    match Parse(e.id)
    case Local(name) => exists s :: s in items && s.name == name && s.source == Some(e.source)
    case Backup(namespace, name) =>
      exists b :: b in backups && (b.namespace, b.name) == (namespace, name) && b.sourceLabel == Some(e.source)
  }

  /** Every listed identifier leads back to its object, names being without colons and namespaces without slashes. */
  lemma ListedIdsLeadBack(items: seq<Snapshot>, backups: seq<RemoteBackup>, req: Request, e: Entry)
    requires Readable(items, req)
    requires forall s :: s in items ==> ':' !in s.name
    requires forall b :: b in backups ==> '/' !in b.namespace
    requires e in Selected(items, req) || e in SelectedBackups(backups, req)
    ensures LeadsBack(items, backups, e)
    ensures Parse(e.id).Local? <==> e in Selected(items, req)
  {
    if e in Selected(items, req) {
      SelectedIff(items, req, e);
      var s :| s in items && e.id == s.name && s.source == Some(e.source);
      NamesAreLocal(s.name);
    } else {
      SelectedBackupsIff(backups, req, e);
      var b :| b in backups && b.sourceLabel == Some(e.source) && e.id == "backup:" + b.namespace + "/" + b.name;
      ParseIff(e.id, b.namespace, b.name);
    }
  }

  /** Asking for one snapshot by its identifier does not narrow the backups that come with it. */
  lemma {:induction false} BackupsIgnoreSnapshotId(items: seq<RemoteBackup>, req: Request, id: string)
    ensures SelectedBackups(items, req.(snapshotId := id)) == SelectedBackups(items, req)
  {
    if items != [] {
      BackupsIgnoreSnapshotId(items[..|items| - 1], req, id);
    }
  }

  lemma {:induction false} SelectedSplits(a: seq<Snapshot>, b: seq<Snapshot>, req: Request)
    requires Readable(a + b, req)
    ensures Readable(a, req) && Readable(b, req) && Selected(a + b, req) == Selected(a, req) + Selected(b, req)
  {
    assert forall s :: s in a ==> s in a + b;
    assert forall s :: s in b ==> s in a + b;
    if b == [] {
      assert a + b == a;
    } else {
      var init := b[..|b| - 1];
      assert (a + b)[..|a + b| - 1] == a + init;
      assert forall s :: s in a + init ==> s in a + b;
      SelectedSplits(a, init, req);
    }
  }

  /** Filters do not look at the page. */
  lemma {:induction false} SelectedIgnoresPage(items: seq<Snapshot>, req: Request, token: Option<nat>)
    requires Readable(items, req)
    ensures Readable(items, req.(token := token)) && Selected(items, req.(token := token)) == Selected(items, req)
  {
    if items != [] {
      SelectedIgnoresPage(items[..|items| - 1], req, token);
    }
  }

  /**
   * Following the tokens over a list that stays the same: the local entries of the pages, in order, are the
   * selection of the whole list, each once; every page carries all the backups again.
   */
  method ListAll(items: seq<Snapshot>, backups: seq<RemoteBackup>, req: Request)
    returns (locals: seq<Entry>, remote: seq<Entry>, pages: nat)
    requires Readable(items, req) && req.maxEntries >= 0
    ensures locals == Selected(items, req)
    ensures remote == Repeated(SelectedBackups(backups, req), pages)
    ensures pages >= 1
  {
    var token: Option<nat> := None;
    locals, remote, pages := [], [], 0;
    var done := false;
    while !done
      invariant !done ==> Start(req.(token := token)) <= |items|
      invariant !done ==> locals == Selected(items[..Start(req.(token := token))], req)
      invariant done ==> locals == Selected(items, req)
      invariant remote == Repeated(SelectedBackups(backups, req), pages)
      invariant done ==> pages >= 1
      decreases !done, |items| - Start(req.(token := token))
    {
      var ask := req.(token := token);
      var entries, next, local := ListSnapshots(items, Some(backups), ask);
      PageAdvances(items, req, token);
      BackupsIgnorePage(backups, req, token);
      locals := locals + entries.value[..local];
      remote := remote + entries.value[local..];
      pages := pages + 1;
      token := next;
      done := next.None?;
    }
  }

  /** What one page adds to the selection of the items before it. */
  lemma PageAdvances(items: seq<Snapshot>, req: Request, token: Option<nat>)
    requires Readable(items, req) && req.maxEntries >= 0 && Start(req.(token := token)) <= |items|
    ensures var ask := req.(token := token);
      var start := Start(ask);
      var (page, next) := Page(items, start, req.maxEntries);
      var reached := if next.Some? then next.value else |items|;
      && Readable(page, ask) && start <= reached <= |items|
      && (next.Some? ==> start < reached)
      && Selected(items[..start], req) + Selected(page, ask) == Selected(items[..reached], req)
      && items[..|items|] == items
  {
    var start := Start(req.(token := token));
    var (page, next) := Page(items, start, req.maxEntries);
    var reached := if next.Some? then next.value else |items|;
    assert items[..start] + page == items[..reached];
    SelectedSplits(items[..start], page, req);
    SelectedIgnoresPage(page, req, token);
  }

  lemma {:induction false} BackupsIgnorePage(items: seq<RemoteBackup>, req: Request, token: Option<nat>)
    ensures SelectedBackups(items, req.(token := token)) == SelectedBackups(items, req)
  {
    if items != [] {
      BackupsIgnorePage(items[..|items| - 1], req, token);
    }
  }

  function Repeated(s: seq<Entry>, times: nat): seq<Entry> {
    if times == 0 then [] else Repeated(s, times - 1) + s
  }
}
