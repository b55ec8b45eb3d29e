/** Create-only publication: any number of writers, interleaved step by step, with crashes and power loss. */
module AtomicStore {
  import opened Optional

  type Bytes = seq<bv8>

  /** What a call ended with: the path holds its bytes, the path holds others, or an I/O error. */
  datatype Result = Success | Refused | Failed

  /** Where a call stands. After `os.link` has spoken only comparing and cleaning up remain. */
  datatype Stage =
    | Starting
    | Writing(written: nat)
    | Synced
    | Comparing
    | Cleaning(result: Result)
    | Finished(outcome: Result)
    | Dead

  /** One call: its target, its bytes, and the temporary file it made. */
  datatype Writer = Writer(path: string, bytes: Bytes, stage: Stage, temporary: string, file: nat)

  /** A file's contents as a reader sees them, and as the disk is sure to keep them. */
  datatype File = File(visible: Bytes, durable: Option<Bytes>)

  datatype State = State(files: map<nat, File>, names: map<string, nat>, writers: seq<Writer>)

  /** Temporary names start with a dot; published ones do not. */
  predicate IsTemporary(name: string) { name != "" && name[0] == '.' }

  predicate Init(s: State) { s == State(map[], map[], []) }

  function Moved(s: State, w: nat, stage: Stage): State
    requires w < |s.writers|
  {
    s.(writers := s.writers[w := s.writers[w].(stage := stage)])
  }

  datatype Step =
    | Call(path: string, bytes: Bytes)
    | CreateTemporary(w: nat, name: string, file: nat)
    | Write(w: nat, upTo: nat)
    | Sync(w: nat)
    | Link(w: nat)
    | Compare(w: nat)
    | Unlink(w: nat)
    | Error(w: nat)
    | Crash(w: nat)
    | PowerLoss(names: map<string, nat>, files: map<nat, File>)

  /** One step of `_atomic_create` by one caller, or an accident. */
  predicate Next(s: State, t: State, step: Step) {
    match step
    case Call(path, bytes) =>
      !IsTemporary(path) && t == s.(writers := s.writers + [Writer(path, bytes, Starting, "", 0)])
    case CreateTemporary(w, name, file) =>
      && w < |s.writers| && s.writers[w].stage.Starting?
      && IsTemporary(name) && name !in s.names && file !in s.files
      && t == State(s.files[file := File([], None)], s.names[name := file],
                    s.writers[w := s.writers[w].(stage := Writing(0), temporary := name, file := file)])
    case Write(w, upTo) =>
      && w < |s.writers| && s.writers[w].stage.Writing?
      && s.writers[w].stage.written < upTo <= |s.writers[w].bytes|
      && t == Moved(s, w, Writing(upTo)).(files := s.files[s.writers[w].file := File(s.writers[w].bytes[..upTo], None)])
    case Sync(w) =>
      && w < |s.writers| && s.writers[w].stage == Writing(|s.writers[w].bytes|)
      && s.writers[w].file in s.files
      && var visible := s.files[s.writers[w].file].visible;
         t == Moved(s, w, Synced).(files := s.files[s.writers[w].file := File(visible, Some(visible))])
    case Link(w) =>
      && w < |s.writers| && s.writers[w].stage.Synced?
      && t == if s.writers[w].path in s.names then Moved(s, w, Comparing)
              else Moved(s, w, Cleaning(Success)).(names := s.names[s.writers[w].path := s.writers[w].file])
    case Compare(w) =>
      && w < |s.writers| && s.writers[w].stage.Comparing?
      && t == Moved(s, w, Cleaning(
           if s.writers[w].path !in s.names || s.names[s.writers[w].path] !in s.files then Failed
           else if s.files[s.names[s.writers[w].path]].visible == s.writers[w].bytes then Success else Refused))
    case Unlink(w) =>
      && w < |s.writers| && s.writers[w].stage.Cleaning?
      && t == Moved(s, w, Finished(s.writers[w].stage.result)).(names := s.names - {s.writers[w].temporary})
    case Error(w) =>
      && w < |s.writers|
      && t == (match s.writers[w].stage
               case Starting => Moved(s, w, Finished(Failed))
               case Writing(_) | Synced | Comparing => Moved(s, w, Cleaning(Failed))
               case Cleaning(_) => Moved(s, w, Finished(Failed))
               case _ => s)
    case Crash(w) => w < |s.writers| && t == Moved(s, w, Dead)
    case PowerLoss(names, files) =>
      && (forall name | name in names :: name in s.names && names[name] == s.names[name])
      && files.Keys == s.files.Keys
      && (forall f | f in s.files && s.files[f].durable.Some? ::
          files[f] == s.files[f].(visible := s.files[f].durable.value))
      && (forall f | f in s.files && s.files[f].durable.None? :: files[f].durable.None?)
      && t == State(files, names, AllDead(s.writers))
  }

  function AllDead(writers: seq<Writer>): (r: seq<Writer>)
    ensures |r| == |writers| && forall i | 0 <= i < |writers| :: r[i] == writers[i].(stage := Dead)
  {
    seq(|writers|, i requires 0 <= i < |writers| => writers[i].(stage := Dead))
  }

  // ----- what every step keeps -----

  /** The caller still owns its temporary file: nobody else names it and its contents are its bytes so far. */
  predicate Owns(s: State, w: Writer) {
    && IsTemporary(w.temporary) && w.temporary in s.names && s.names[w.temporary] == w.file && w.file in s.files
    && match w.stage
       case Writing(n) => n <= |w.bytes| && s.files[w.file].visible == w.bytes[..n]
       case Synced => s.files[w.file] == File(w.bytes, Some(w.bytes))
       case _ => true
  }

  predicate Preparing(w: Writer) { w.stage.Writing? || w.stage.Synced? }

  predicate Active(w: Writer) { Preparing(w) || w.stage.Comparing? || w.stage.Cleaning? }

  /** A call under way owns its temporary file; until it is linked, the file has no other name. */
  predicate Private(s: State, w: Writer) {
    && (Active(w) ==> Owns(s, w))
    && (Preparing(w) ==> forall name | name in s.names && s.names[name] == w.file :: name == w.temporary)
  }

  predicate Succeeded(w: Writer) { w.stage == Cleaning(Success) || w.stage == Finished(Success) }

  predicate WasRefused(w: Writer) { w.stage == Cleaning(Refused) || w.stage == Finished(Refused) }

  /** The path holds the given bytes, complete and safely on disk. */
  predicate Holds(s: State, path: string, bytes: Bytes) {
    path in s.names && s.names[path] in s.files && s.files[s.names[path]] == File(bytes, Some(bytes))
  }

  /** A call that succeeded finds its bytes at its path, one that was refused finds others there. */
  predicate Told(s: State, w: Writer) {
    && (Succeeded(w) ==> Holds(s, w.path, w.bytes))
    && (WasRefused(w) ==>
        w.path in s.names && s.names[w.path] in s.files && s.files[s.names[w.path]].visible != w.bytes)
    && (w.stage.Comparing? ==> w.path in s.names)
    && !IsTemporary(w.path)
  }

  /** Whatever is published is the complete bytes of a call that asked for it to be published there. */
  ghost predicate Authored(s: State, path: string) {
    exists w: nat :: AuthoredBy(s, path, w)
  }

  predicate AuthoredBy(s: State, path: string, w: nat) {
    w < |s.writers| && s.writers[w].path == path && Holds(s, path, s.writers[w].bytes)
  }

  ghost predicate CallsHold(s: State) {
    forall w | 0 <= w < |s.writers| :: Private(s, s.writers[w]) && Told(s, s.writers[w])
  }

  ghost predicate FilesApart(s: State) {
    forall v, w | 0 <= v < w < |s.writers| && Active(s.writers[v]) && Active(s.writers[w]) ::
      s.writers[v].file != s.writers[w].file
  }

  ghost predicate PathsAuthored(s: State) {
    forall path | path in s.names && !IsTemporary(path) :: Authored(s, path)
  }

  predicate NamesResolve(s: State) { forall name | name in s.names :: s.names[name] in s.files }

  ghost predicate Inv(s: State) { CallsHold(s) && FilesApart(s) && PathsAuthored(s) && NamesResolve(s) }

  // ----- one step at a time -----

  /** No call loses its identity: later states have the same calls, perhaps more. */
  predicate SameCalls(s: State, t: State) {
    && |s.writers| <= |t.writers|
    && forall w | 0 <= w < |s.writers| :: t.writers[w].path == s.writers[w].path
        && t.writers[w].bytes == s.writers[w].bytes
  }

  /** Published paths keep their file, and the files they name keep their contents. */
  predicate Published(s: State, t: State) {
    forall path | path in s.names && !IsTemporary(path) ::
      && path in t.names && t.names[path] == s.names[path]
      && (s.names[path] in s.files ==> s.names[path] in t.files && t.files[s.names[path]] == s.files[s.names[path]])
  }

  lemma AuthoredStays(s: State, t: State, path: string)
    requires SameCalls(s, t) && Published(s, t) && !IsTemporary(path) && Authored(s, path)
    ensures Authored(t, path)
  {
    var w :| AuthoredBy(s, path, w);
    assert AuthoredBy(t, path, w);
  }

  /** The stage of one call moves on, files and names stay. */
  lemma StageMoves(s: State, w: nat, stage: Stage)
    requires Inv(s) && w < |s.writers|
    requires stage.Comparing? || stage.Cleaning? ==> Active(s.writers[w])
    requires !stage.Writing? && !stage.Synced?
    requires Told(s, s.writers[w].(stage := stage))
    ensures Inv(Moved(s, w, stage)) && Published(s, Moved(s, w, stage))
  {
    var t := Moved(s, w, stage);
    forall path | path in t.names && !IsTemporary(path) ensures Authored(t, path) { AuthoredStays(s, t, path); }
    forall v | 0 <= v < |t.writers| ensures Private(t, t.writers[v]) && Told(t, t.writers[v]) {
      assert Private(s, s.writers[v]) && Told(s, s.writers[v]);
    }
  }

  lemma CallKeeps(s: State, path: string, bytes: Bytes)
    requires Inv(s) && !IsTemporary(path)
    ensures var t := s.(writers := s.writers + [Writer(path, bytes, Starting, "", 0)]); Inv(t) && Published(s, t)
  {
    var t := s.(writers := s.writers + [Writer(path, bytes, Starting, "", 0)]);
    forall p | p in t.names && !IsTemporary(p) ensures Authored(t, p) { AuthoredStays(s, t, p); }
    forall v | 0 <= v < |s.writers| ensures Private(t, t.writers[v]) && Told(t, t.writers[v]) {
      assert Private(s, s.writers[v]) && Told(s, s.writers[v]);
    }
  }

  lemma CreateKeeps(s: State, t: State, w: nat, name: string, file: nat)
    requires Inv(s) && Next(s, t, CreateTemporary(w, name, file))
    ensures Inv(t) && Published(s, t)
  {
    forall p | p in t.names && !IsTemporary(p) ensures Authored(t, p) { AuthoredStays(s, t, p); }
    forall v | 0 <= v < |t.writers| ensures Private(t, t.writers[v]) && Told(t, t.writers[v]) {
      assert Private(s, s.writers[v]) && Told(s, s.writers[v]);
    }
    forall v, u | 0 <= v < u < |t.writers| && Active(t.writers[v]) && Active(t.writers[u])
      ensures t.writers[v].file != t.writers[u].file
    {
      assert Private(s, s.writers[v]) && Private(s, s.writers[u]);
    }
  }

  /** Writing to, or syncing, a file that is still private. */
  lemma ContentsMove(s: State, t: State, w: nat, stage: Stage, file: File)
    requires Inv(s) && w < |s.writers| && Preparing(s.writers[w]) && (stage.Writing? || stage.Synced?)
    requires t == Moved(s, w, stage).(files := s.files[s.writers[w].file := file])
    requires stage.Writing? ==>
        stage.written <= |s.writers[w].bytes| && file.visible == s.writers[w].bytes[..stage.written]
    requires stage.Synced? ==> file == File(s.writers[w].bytes, Some(s.writers[w].bytes))
    ensures Inv(t) && Published(s, t)
  {
    var mine := s.writers[w].file;
    assert Private(s, s.writers[w]);
    assert forall path | path in s.names && !IsTemporary(path) :: s.names[path] != mine;
    forall p | p in t.names && !IsTemporary(p) ensures Authored(t, p) { AuthoredStays(s, t, p); }
    forall v | 0 <= v < |t.writers| ensures Private(t, t.writers[v]) && Told(t, t.writers[v]) {
      assert Private(s, s.writers[v]) && Told(s, s.writers[v]);
      if v != w && Active(s.writers[v]) { assert s.writers[v].file != mine; }
    }
  }

  lemma LinkKeeps(s: State, t: State, w: nat)
    requires Inv(s) && Next(s, t, Link(w))
    ensures Inv(t) && Published(s, t)
  {
    var me := s.writers[w];
    assert Private(s, me) && Told(s, me);
    if me.path in s.names {
      StageMoves(s, w, Comparing);
    } else {
      forall p | p in t.names && !IsTemporary(p) ensures Authored(t, p) {
        if p == me.path { assert AuthoredBy(t, p, w); } else { AuthoredStays(s, t, p); }
      }
      forall v | 0 <= v < |t.writers| ensures Private(t, t.writers[v]) && Told(t, t.writers[v]) {
        assert Private(s, s.writers[v]) && Told(s, s.writers[v]);
        if v != w && Active(s.writers[v]) { assert s.writers[v].file != me.file; }
      }
    }
  }

  lemma CompareKeeps(s: State, t: State, w: nat)
    requires Inv(s) && Next(s, t, Compare(w))
    ensures Inv(t) && Published(s, t)
  {
    var me := s.writers[w];
    assert Told(s, me);
    assert Authored(s, me.path);
    var a :| AuthoredBy(s, me.path, a);
    StageMoves(s, w, t.writers[w].stage);
  }

  lemma UnlinkKeeps(s: State, t: State, w: nat)
    requires Inv(s) && Next(s, t, Unlink(w))
    ensures Inv(t) && Published(s, t)
  {
    var me := s.writers[w];
    assert Told(s, me) && Private(s, me);
    forall p | p in t.names && !IsTemporary(p) ensures Authored(t, p) { AuthoredStays(s, t, p); }
    forall v | 0 <= v < |t.writers| ensures Private(t, t.writers[v]) && Told(t, t.writers[v]) {
      assert Private(s, s.writers[v]) && Told(s, s.writers[v]);
      if v != w && Active(s.writers[v]) { assert s.writers[v].file != me.file; }
    }
  }

  lemma PowerLossKeeps(s: State, t: State, names: map<string, nat>, files: map<nat, File>)
    requires Inv(s) && Next(s, t, PowerLoss(names, files))
    ensures Inv(t)
  {
    forall p | p in t.names && !IsTemporary(p) ensures Authored(t, p) {
      var w :| AuthoredBy(s, p, w);
      assert AuthoredBy(t, p, w);
    }
    forall v | 0 <= v < |t.writers| ensures Private(t, t.writers[v]) && Told(t, t.writers[v]) {
      assert Told(s, s.writers[v]);
    }
  }

  /** Every step keeps the invariant, and every step but a loss of power keeps what is published. */
  lemma StepKeeps(s: State, t: State, step: Step)
    requires Inv(s) && Next(s, t, step)
    ensures Inv(t)
    ensures !step.PowerLoss? ==> Published(s, t)
  {
    match step
    case Call(path, bytes) => CallKeeps(s, path, bytes);
    case CreateTemporary(w, name, file) => CreateKeeps(s, t, w, name, file);
    case Write(w, upTo) =>
      ContentsMove(s, t, w, Writing(upTo), File(s.writers[w].bytes[..upTo], None));
    case Sync(w) => SyncKeeps(s, t, w);
    case Link(w) => LinkKeeps(s, t, w);
    case Compare(w) => CompareKeeps(s, t, w);
    case Unlink(w) => UnlinkKeeps(s, t, w);
    case Error(w) =>
      assert Told(s, s.writers[w]);
      if s.writers[w].stage != t.writers[w].stage { StageMoves(s, w, t.writers[w].stage); }
    case Crash(w) =>
      assert Told(s, s.writers[w]);
      StageMoves(s, w, Dead);
    case PowerLoss(names, files) => PowerLossKeeps(s, t, names, files);
  }

  lemma SyncKeeps(s: State, t: State, w: nat)
    requires Inv(s) && Next(s, t, Sync(w))
    ensures Inv(t) && Published(s, t)
  {
    var me := s.writers[w];
    assert Private(s, me);
    assert me.bytes[..|me.bytes|] == me.bytes;
    ContentsMove(s, t, w, Synced, File(me.bytes, Some(me.bytes)));
  }

  // ----- whole runs -----

  /** A run from the empty store: `steps[i]` leads from `states[i]` to `states[i + 1]`. */
  ghost predicate Run(states: seq<State>, steps: seq<Step>) {
    && |states| == |steps| + 1 && Init(states[0])
    && forall i | 0 <= i < |steps| :: Leads(states, steps, i)
  }

  predicate Leads(states: seq<State>, steps: seq<Step>, i: nat)
    requires |states| == |steps| + 1 && i < |steps|
  {
    Next(states[i], states[i + 1], steps[i])
  }

  lemma {:induction false} RunKeeps(states: seq<State>, steps: seq<Step>, i: nat)
    requires Run(states, steps) && i < |states|
    ensures Inv(states[i])
  {
    if i > 0 {
      RunKeeps(states, steps, i - 1);
      assert Leads(states, steps, i - 1);
      StepKeeps(states[i - 1], states[i], steps[i - 1]);
    }
  }

  /** At every moment of every run a published path holds the complete bytes of one of the calls made for it,
      and those bytes are safely on disk. */
  lemma PublishedIsComplete(states: seq<State>, steps: seq<Step>, i: nat, path: string)
    requires Run(states, steps) && i < |states| && path in states[i].names && !IsTemporary(path)
    ensures exists w: nat :: AuthoredBy(states[i], path, w)
  {
    RunKeeps(states, steps, i);
  }

  /** While the power stays on, a published path keeps its contents for good. */
  lemma {:induction false} PublishedIsPermanent(states: seq<State>, steps: seq<Step>, i: nat, j: nat, path: string,
                                                bytes: Bytes)
    requires Run(states, steps) && i <= j < |states|
    requires forall k | i <= k < j :: !steps[k].PowerLoss?
    requires !IsTemporary(path) && Holds(states[i], path, bytes)
    ensures Holds(states[j], path, bytes)
  {
    if i < j {
      PublishedIsPermanent(states, steps, i, j - 1, path, bytes);
      RunKeeps(states, steps, j - 1);
      assert Leads(states, steps, j - 1);
      StepKeeps(states[j - 1], states[j], steps[j - 1]);
    }
  }

  /** A call that has succeeded finds its own bytes at its path, and a call that was refused finds others. */
  lemma OutcomeIsTruthful(states: seq<State>, steps: seq<Step>, i: nat, w: nat)
    requires Run(states, steps) && i < |states| && w < |states[i].writers|
    ensures var me := states[i].writers[w];
      && (me.stage == Cleaning(Success) || me.stage == Finished(Success) ==> Holds(states[i], me.path, me.bytes))
      && (me.stage == Cleaning(Refused) || me.stage == Finished(Refused) ==> exists v: nat ::
          AuthoredBy(states[i], me.path, v) && states[i].writers[v].bytes != me.bytes)
  {
    var s := states[i];
    RunKeeps(states, steps, i);
    assert Told(s, s.writers[w]);
    if WasRefused(s.writers[w]) {
      assert Authored(s, s.writers[w].path);
      var v :| AuthoredBy(s, s.writers[w].path, v);
    }
  }

  /** When every call for a path brings the same bytes, as a content address makes sure, nobody is refused. */
  lemma SameBytesNeverRefused(states: seq<State>, steps: seq<Step>, i: nat, w: nat)
    requires Run(states, steps) && i < |states| && w < |states[i].writers|
    requires forall v | 0 <= v < |states[i].writers| ::
      states[i].writers[v].path == states[i].writers[w].path ==>
        states[i].writers[v].bytes == states[i].writers[w].bytes
    ensures states[i].writers[w].stage != Cleaning(Refused) && states[i].writers[w].stage != Finished(Refused)
  {
    OutcomeIsTruthful(states, steps, i, w);
  }

  /** A call that finds its path taken ends by what the path holds: its own bytes and it has succeeded, others and it is
      refused. */
  lemma ComparisonDecides(states: seq<State>, steps: seq<Step>, i: nat, w: nat)
    requires Run(states, steps) && i < |steps| && steps[i] == Compare(w)
    ensures w < |states[i].writers| && w < |states[i + 1].writers|
    ensures var me := states[i].writers[w];
      && me.path in states[i].names && states[i + 1].writers[w].path == me.path
      && states[i + 1].writers[w].stage == Cleaning(if Holds(states[i], me.path, me.bytes) then Success else Refused)
  {
    var s := states[i];
    RunKeeps(states, steps, i);
    assert Leads(states, steps, i);
    assert Told(s, s.writers[w]);
    assert Authored(s, s.writers[w].path);
    var v :| AuthoredBy(s, s.writers[w].path, v);
  }

  /** Only the file is synced, not its directory: losing power can still take a finished call's name away. */
  lemma NameMayBeLost(s: State, w: nat)
    requires Inv(s) && w < |s.writers| && s.writers[w].stage == Finished(Success)
    ensures exists t, names, files :: Next(s, t, PowerLoss(names, files)) && s.writers[w].path !in t.names
  {
    var names := s.names - {s.writers[w].path};
    var files := map f | f in s.files ::
      if s.files[f].durable.Some? then s.files[f].(visible := s.files[f].durable.value) else s.files[f];
    assert Next(s, State(files, names, AllDead(s.writers)), PowerLoss(names, files));
  }

  /** The call of one undisturbed run at a stage. */
  function Alone(path: string, bytes: Bytes, stage: Stage): Writer {
    Writer(path, bytes, stage, if stage.Starting? then "" else ".t", 0)
  }

  /** The i-th state of a run in which one call writes, syncs, links and cleans up, and then power is lost. */
  function Moment(path: string, bytes: Bytes, i: nat): State {
    var empty, written, durable := File([], None), File(bytes, None), File(bytes, Some(bytes));
    match i
    case 0 => State(map[], map[], [])
    case 1 => State(map[], map[], [Alone(path, bytes, Starting)])
    case 2 => State(map[0 := empty], map[".t" := 0], [Alone(path, bytes, Writing(0))])
    case 3 => State(map[0 := written], map[".t" := 0], [Alone(path, bytes, Writing(|bytes|))])
    case 4 => State(map[0 := durable], map[".t" := 0], [Alone(path, bytes, Synced)])
    case 5 => State(map[0 := durable], map[".t" := 0, path := 0], [Alone(path, bytes, Cleaning(Success))])
    case 6 => State(map[0 := durable], map[path := 0], [Alone(path, bytes, Finished(Success))])
    case _ => State(map[0 := durable], map[], [Alone(path, bytes, Dead)])
  }

  function Move(path: string, bytes: Bytes, i: nat): Step {
    match i
    case 0 => Call(path, bytes)
    case 1 => CreateTemporary(0, ".t", 0)
    case 2 => Write(0, |bytes|)
    case 3 => Sync(0)
    case 4 => Link(0)
    case 5 => Unlink(0)
    case _ => PowerLoss(map[], map[0 := File(bytes, Some(bytes))])
  }

  lemma MomentLeads(path: string, bytes: Bytes, i: nat)
    requires !IsTemporary(path) && bytes != [] && i < 7
    ensures Next(Moment(path, bytes, i), Moment(path, bytes, i + 1), Move(path, bytes, i))
  {
    if i < 4 { Prepares(path, bytes, i); } else { Publishes(path, bytes, i); }
  }

  lemma Prepares(path: string, bytes: Bytes, i: nat)
    requires !IsTemporary(path) && bytes != [] && i < 4
    ensures Next(Moment(path, bytes, i), Moment(path, bytes, i + 1), Move(path, bytes, i))
  {
    assert bytes[..|bytes|] == bytes;
  }

  lemma Publishes(path: string, bytes: Bytes, i: nat)
    requires !IsTemporary(path) && bytes != [] && 4 <= i < 7
    ensures Next(Moment(path, bytes, i), Moment(path, bytes, i + 1), Move(path, bytes, i))
  {
    var s, t := Moment(path, bytes, i), Moment(path, bytes, i + 1);
    assert path != ".t";
    if i == 5 {
      assert s.names - {".t"} == t.names;
    } else if i == 6 {
      assert t.writers == AllDead(s.writers);
    }
  }

  /** A whole run that ends so, for any path and any bytes: the call has reported success and holds its path, then power
      is lost and the path is not there. */
  lemma FinishedCallIsLost(path: string, bytes: Bytes) returns (states: seq<State>, steps: seq<Step>)
    requires !IsTemporary(path) && bytes != []
    ensures Run(states, steps) && |steps| == 7 && steps[6].PowerLoss?
    ensures |states[6].writers| == 1 && states[6].writers[0].path == path
        && states[6].writers[0].stage == Finished(Success)
    ensures Holds(states[6], path, bytes) && path !in states[7].names
  {
    states := seq(8, i requires 0 <= i < 8 => Moment(path, bytes, i));
    steps := seq(7, i requires 0 <= i < 7 => Move(path, bytes, i));
    forall i | 0 <= i < 7 ensures Leads(states, steps, i) {
      MomentLeads(path, bytes, i);
    }
  }
}
