/**
 * Optimistic concurrency on one API object, for any kind of object and operation.
 *
 * Any number of writers share the object.  Each one reads it, keeps the private copy it saw, and
 * later sends a write computed from that copy.  `serve(op, seen, current)` is the content the
 * server commits for such a write, or None when nothing is written: the writer had nothing to
 * send, or the server rejected the request.  Other writers may replace the content at any time.
 *
 * A reply lost on its way back changes nothing here, because only the server's object is state;
 * the caller's retry is a new `Read`.
 */
module OptimisticStore {
  import opened Options

  datatype Object<T> = Object(version: nat, content: T)

  datatype Writer<O, T> = Writer(op: O, seen: Object<T>)

  datatype System<O, T> = System(current: Object<T>, writers: map<nat, Writer<O, T>>)

  datatype Event<O, T> =
    | Read(id: nat, op: O)   // a writer gets the object (again)
    | Send(id: nat)          // a writer sends the write it computed from its copy
    | Other(content: T)      // somebody else's write

  type Server<!O, !T> = (O, Object<T>, Object<T>) -> Option<T>

  /** The server keeps the version when a write changes nothing. */
  function Commit<T(==)>(o: Object<T>, content: T): Object<T> {
    if content == o.content then o else Object(o.version + 1, content)
  }

  function Deliver<O, T(==)>(serve: Server<O, T>, op: O, seen: Object<T>, current: Object<T>): Object<T> {
    match serve(op, seen, current)
    case None => current
    case Some(content) => Commit(current, content)
  }

  function Step<O, T(==)>(serve: Server<O, T>, s: System<O, T>, e: Event<O, T>): System<O, T> {
    match e
    case Read(id, op) => s.(writers := s.writers[id := Writer(op, s.current)])
    case Send(id) =>
      if id in s.writers then
        System(Deliver(serve, s.writers[id].op, s.writers[id].seen, s.current), s.writers - {id})
      else s
    case Other(content) => s.(current := Object(s.current.version + 1, content))
  }

  function Run<O, T(==)>(serve: Server<O, T>, s: System<O, T>, es: seq<Event<O, T>>): System<O, T> {
    if es == [] then s else Step(serve, Run(serve, s, es[..|es| - 1]), es[|es| - 1])
  }

  /** One committed write: an operation by name only, without the copy it was computed from. */
  datatype Entry<O, T> = ByWriter(op: O) | ByOther(content: T)

  function Emitted<O, T>(serve: Server<O, T>, s: System<O, T>, e: Event<O, T>): seq<Entry<O, T>> {
    match e
    case Read(_, _) => []
    case Send(id) =>
      if id in s.writers && serve(s.writers[id].op, s.writers[id].seen, s.current).Some?
      then [ByWriter(s.writers[id].op)] else []
    case Other(content) => [ByOther(content)]
  }

  function Log<O, T(==)>(serve: Server<O, T>, s: System<O, T>, es: seq<Event<O, T>>): seq<Entry<O, T>> {
    if es == [] then []
    else Log(serve, s, es[..|es| - 1]) + Emitted(serve, Run(serve, s, es[..|es| - 1]), es[|es| - 1])
  }

  /** One entry run atomically: a writer's copy is the object itself. */
  function Apply<O, T(==)>(serve: Server<O, T>, o: Object<T>, entry: Entry<O, T>): Object<T> {
    match entry
    case ByWriter(op) => Deliver(serve, op, o, o)
    case ByOther(content) => Object(o.version + 1, content)
  }

  function Replay<O, T(==)>(serve: Server<O, T>, o: Object<T>, log: seq<Entry<O, T>>): Object<T> {
    if log == [] then o else Apply(serve, Replay(serve, o, log[..|log| - 1]), log[|log| - 1])
  }

  /** Every operation in the log is one the server accepts when it runs atomically in its place. */
  ghost predicate Accepted<O, T>(serve: Server<O, T>, o: Object<T>, log: seq<Entry<O, T>>) {
    forall k :: 0 <= k < |log| && log[k].ByWriter? ==>
      var here := Replay(serve, o, log[..k]);
      serve(log[k].op, here, here).Some?
  }

  /** A write is refused unless the version it was computed from is still current. */
  ghost predicate Guarded<O(!new), T(!new)>(serve: Server<O, T>) {
    forall op, seen, current :: serve(op, seen, current).Some? ==> seen.version == current.version
  }

  /** `b` is `a` or a later state of it: a version names one content. */
  predicate Later<T(==)>(a: Object<T>, b: Object<T>) {
    a.version <= b.version && (a.version == b.version ==> a == b)
  }

  /** The inductive invariant: an equal version means an equal content. */
  ghost predicate Coherent<O, T>(s: System<O, T>) {
    forall id :: id in s.writers ==> Later(s.writers[id].seen, s.current)
  }

  lemma StepCoherent<O, T>(serve: Server<O, T>, s: System<O, T>, e: Event<O, T>)
    requires Coherent(s)
    ensures Coherent(Step(serve, s, e))
    ensures Later(s.current, Step(serve, s, e).current)
  {
  }

  lemma {:induction false} ReplayExtends<O, T>(serve: Server<O, T>, o: Object<T>, a: seq<Entry<O, T>>, b: seq<Entry<O, T>>)
    ensures Replay(serve, o, a + b) == Replay(serve, Replay(serve, o, a), b)
  {
    if b == [] {
      assert a + b == a;
    } else {
      assert (a + b)[..|a + b| - 1] == a + b[..|b| - 1];
      ReplayExtends(serve, o, a, b[..|b| - 1]);
    }
  }

  /**
   * Every interleaving is serial: the object ends as if the accepted operations had each done their
   * whole read, computation and write at once, in the order the server accepted them.
   */
  lemma {:induction false} Serializable<O(!new), T(!new)>(serve: Server<O, T>, s: System<O, T>, es: seq<Event<O, T>>)
    requires Guarded(serve)
    requires Coherent(s)
    ensures Coherent(Run(serve, s, es))
    ensures Later(s.current, Run(serve, s, es).current)
    ensures Run(serve, s, es).current == Replay(serve, s.current, Log(serve, s, es))
    ensures Accepted(serve, s.current, Log(serve, s, es))
  {
    if es != [] {
      var prefix, e := es[..|es| - 1], es[|es| - 1];
      Serializable(serve, s, prefix);
      var before, log := Run(serve, s, prefix), Log(serve, s, prefix);
      StepCoherent(serve, before, e);
      var emitted := Emitted(serve, before, e);
      ReplayExtends(serve, s.current, log, emitted);
      AcceptedExtends(serve, s.current, log, emitted);
      if emitted != [] {
        assert emitted[..0] == [];
      }
    }
  }

  lemma AcceptedExtends<O, T>(serve: Server<O, T>, o: Object<T>, log: seq<Entry<O, T>>, more: seq<Entry<O, T>>)
    requires Accepted(serve, o, log)
    requires |more| <= 1
    requires more != [] && more[0].ByWriter? ==>
      serve(more[0].op, Replay(serve, o, log), Replay(serve, o, log)).Some?
    ensures Accepted(serve, o, log + more)
  {
    var whole := log + more;
    forall k | 0 <= k < |whole| && whole[k].ByWriter?
      ensures var here := Replay(serve, o, whole[..k]); serve(whole[k].op, here, here).Some?
    {
      if k < |log| {
        assert whole[..k] == log[..k];
      } else {
        assert whole[..k] == log;
      }
    }
  }

  /** What a send does in any reachable state: the atomic operation, or nothing at all. */
  lemma SendIsAtomicOrNothing<O(!new), T(!new)>(serve: Server<O, T>, s: System<O, T>, id: nat)
    requires Guarded(serve)
    requires Coherent(s)
    requires id in s.writers
    ensures var w := s.writers[id];
      Step(serve, s, Send(id)).current ==
        if w.seen.version == s.current.version then Deliver(serve, w.op, s.current, s.current) else s.current
  {
  }

  /** The k-th committed write of a run, when it is a writer's: the atomic operation, accepted in its place. */
  lemma WriteInPlace<O(!new), T(!new)>(serve: Server<O, T>, s: System<O, T>, es: seq<Event<O, T>>, k: nat)
    requires Guarded(serve) && Coherent(s)
    requires k < |Log(serve, s, es)| && Log(serve, s, es)[k].ByWriter?
    ensures var log := Log(serve, s, es);
      var here := Replay(serve, s.current, log[..k]);
      && serve(log[k].op, here, here).Some?
      && Replay(serve, s.current, log[..k + 1]) == Deliver(serve, log[k].op, here, here)
      && Run(serve, s, es).current == Replay(serve, s.current, log[..|log|])
  {
    Serializable(serve, s, es);
    AcceptedInPlace(serve, s.current, Log(serve, s, es), k);
  }

  lemma AcceptedInPlace<O, T>(serve: Server<O, T>, o: Object<T>, log: seq<Entry<O, T>>, k: nat)
    requires Accepted(serve, o, log)
    requires k < |log| && log[k].ByWriter?
    ensures var here := Replay(serve, o, log[..k]);
      serve(log[k].op, here, here).Some? && Replay(serve, o, log[..k + 1]) == Deliver(serve, log[k].op, here, here)
    ensures log[..|log|] == log
  {
    var next := log[..k + 1];
    assert next[..|next| - 1] == log[..k] && next[|next| - 1] == log[k];
  }
}
