/**
 The verification receipts: a cached file stamp that saves rereading a model, under foreign writes to its files
 between any two steps of the job.

 Sources: src/app/jobs.c:143-244 and src/app/routes.c:455-468.
 */
module Receipts {

  /** A write's contents: whether model_stamp accepts the size, and whether the digest is the catalog's. */
  datatype Content = Content(sized: bool, matches: bool)

  /**
   Every write to a file gives it a stamp never used before, so equal stamps mean unchanged contents; a stamp is
   the number of that write.
   */
  datatype File = Missing | File(inode: nat, stamp: nat)

  datatype Option<T> = None | Some(value: T)

  /** The job's program counter with its locals; `quiet` while no foreign write has hit the verified file. */
  datatype Job =
    | Idle
    | Stamped(download: bool, before: Option<nat>)
    | Checked(download: bool, before: Option<nat>, cached: bool)
    | Hashing(download: bool, before: Option<nat>, from: Option<nat>)
    | Hashed(download: bool, before: Option<nat>, cached: bool, hash: bool)
    | Verified(download: bool, stamp: nat, cached: bool)
    | Placing(stamp: nat, held: nat, quiet: bool)
    | Renamed(held: nat, quiet: bool)
    | Placed(quiet: bool)
    | Saving(after: nat, quiet: bool)

  /** Everything ever written, by stamp; the two files; the stored receipt, and whether its save was not quiet. */
  datatype State = State(log: seq<Content>, target: File, part: File, receipt: Option<nat>, job: Job, raced: bool)

  const INIT := State([], Missing, Missing, None, Idle, false)

  datatype Event =
    | Foreign(toPart: bool, file: Option<(nat, Content)>)
    | Begin(download: bool)
    | ReadReceipt
    | StartHash
    | EndHash(seen: bool)
    | StampAgain
    | StampPart
    | Rename
    | Compare
    | StampTarget
    | Save
    | GiveUp

  function Verify(s: State, download: bool): File {
    if download then s.part else s.target
  }

  /** model_stamp. */
  function Stamp(s: State, f: File): Option<nat> {
    if f.File? && f.stamp < |s.log| && s.log[f.stamp].sized then Some(f.stamp) else None
  }

  /**
   A foreign write that hits what the receipt will name: one to the verified inode from the last stamp of the
   part to the comparison of the inodes, any one to the target from there to the stamp of the target.
   */
  predicate Hits(s: State, e: Event) {
    e.Foreign? && e.file.Some? &&
    match s.job
    case Placing(_, held, _) => e.toPart && e.file.value.0 == held
    case Renamed(held, _) => !e.toPart && e.file.value.0 == held
    case Placed(_) => !e.toPart
    case _ => false
  }

  function Disturbed(j: Job): Job {
    match j
    case Placing(stamp, held, _) => Placing(stamp, held, false)
    case Renamed(held, _) => Renamed(held, false)
    case Placed(_) => Placed(false)
    case _ => j
  }

  /** A write in place keeps the inode, a replacement brings another; both get the next stamp. */
  function Written(s: State, toPart: bool, file: Option<(nat, Content)>): State {
    var t := if Hits(s, Foreign(toPart, file)) then s.(job := Disturbed(s.job)) else s;
    match file
    case None => if toPart then t.(part := Missing) else t.(target := Missing)
    case Some(w) =>
      var f := File(w.0, |s.log|);
      if toPart then t.(log := s.log + [w.1], part := f) else t.(log := s.log + [w.1], target := f)
  }

  function Next(s: State, e: Event): State {
    match e
    case Foreign(toPart, file) => Written(s, toPart, file)
    case GiveUp => s.(job := Idle)
    case Begin(download) => if s.job.Idle? then s.(job := Stamped(download, Stamp(s, Verify(s, download)))) else s
    case ReadReceipt =>
      if s.job.Stamped? then
        s.(job := Checked(s.job.download, s.job.before, !s.job.download && s.job.before.Some? && s.job.before == s.receipt))
      else s
    case StartHash =>
      if !s.job.Checked? then s
      else if s.job.cached then s.(job := Hashed(s.job.download, s.job.before, true, true))
      else if s.job.before.None? then s.(job := Idle)
      else
        var f := Verify(s, s.job.download);
        s.(job := Hashing(s.job.download, s.job.before, if f.File? then Some(f.stamp) else None))
    case EndHash(seen) =>
      if !s.job.Hashing? then s
      else
        var f := Verify(s, s.job.download);
        var same := f.File? && s.job.from == Some(f.stamp) && f.stamp < |s.log|;
        s.(job := Hashed(s.job.download, s.job.before, false, if same then s.log[f.stamp].matches else seen))
    case StampAgain =>
      if !s.job.Hashed? then s
      else
        var after := Stamp(s, Verify(s, s.job.download));
        if s.job.hash && after.Some? && after == s.job.before then s.(job := Verified(s.job.download, after.value, s.job.cached))
        else s.(job := Idle)
    case StampPart =>
      if !s.job.Verified? || !s.job.download then s
      else if s.part.File? && Stamp(s, s.part) == Some(s.job.stamp) then
        s.(job := Placing(s.job.stamp, s.part.inode, true))
      else s.(job := Idle)
    case Rename =>
      if !s.job.Placing? then s
      else if s.part.File? && s.part.stamp < |s.log| then
        s.(log := s.log + [s.log[s.part.stamp]], target := File(s.part.inode, |s.log|), part := Missing,
           job := Renamed(s.job.held, s.job.quiet))
      else s.(job := Idle)
    case Compare =>
      if s.job.Renamed? then
        if s.target.File? && s.target.inode == s.job.held then s.(job := Placed(s.job.quiet)) else s.(job := Idle)
      else s
    case StampTarget =>
      if s.job.Placed? then
        if Stamp(s, s.target).Some? then s.(job := Saving(Stamp(s, s.target).value, s.job.quiet)) else s.(job := Idle)
      else s
    case Save =>
      if s.job.Saving? then s.(receipt := Some(s.job.after), raced := !s.job.quiet, job := Idle)
      else if s.job.Verified? && !s.job.download && !s.job.cached then
        s.(receipt := Some(s.job.stamp), raced := false, job := Idle)
      else s
  }

  function Run(s: State, es: seq<Event>): State
    decreases |es|
  {
    if es == [] then s else Run(Next(s, es[0]), es[1..])
  }

  // ------------------------------------------------------------------ invariants

  ghost predicate Matches(s: State, stamp: nat) {
    stamp < |s.log| && s.log[stamp].matches
  }

  /** Unless its own download was raced, the receipt names contents with the catalog's digest. */
  ghost predicate Trusted(s: State) {
    s.receipt.Some? ==> s.receipt.value < |s.log| && (!s.raced ==> Matches(s, s.receipt.value))
  }

  ghost predicate Stamps(s: State) {
    (s.target.File? ==> s.target.stamp < |s.log|) && (s.part.File? ==> s.part.stamp < |s.log|)
  }

  ghost predicate Old(s: State, stamp: Option<nat>) {
    stamp.Some? ==> stamp.value < |s.log|
  }

  /** The file stands at the stamp. */
  ghost predicate At(f: File, stamp: Option<nat>) {
    f.File? && stamp == Some(f.stamp)
  }

  /**
   What the job has learnt about the file holds as long as the stamp it took first still stands; a hit of the
   cache knows only what the receipt knows.
   */
  ghost predicate Learnt(s: State) {
    match s.job
    case Idle => true
    case Stamped(_, before) => Old(s, before)
    case Checked(download, before, cached) =>
      Old(s, before) && (cached ==> !download && before.Some? && (!s.raced ==> Matches(s, before.value)))
    case Hashing(download, before, from) => Old(s, before) && (At(Verify(s, download), before) ==> from == before)
    case Hashed(download, before, cached, hash) =>
      && Old(s, before)
      && (cached ==> !download && before.Some? && (!s.raced ==> Matches(s, before.value)))
      && (!cached && hash && At(Verify(s, download), before) ==> Matches(s, before.value))
    case Verified(download, stamp, cached) =>
      stamp < |s.log| && (cached ==> !download) && (!cached || !s.raced ==> Matches(s, stamp))
    case Placing(_, held, quiet) => quiet && s.part.File? && s.part.inode == held ==> Matches(s, s.part.stamp)
    case Renamed(held, quiet) => quiet && s.target.File? && s.target.inode == held ==> Matches(s, s.target.stamp)
    case Placed(quiet) => quiet && s.target.File? ==> Matches(s, s.target.stamp)
    case Saving(after, quiet) => after < |s.log| && (quiet ==> Matches(s, after))
  }

  ghost predicate Inv(s: State) {
    Trusted(s) && Stamps(s) && Learnt(s)
  }

  lemma WrittenKeeps(s: State, toPart: bool, file: Option<(nat, Content)>)
    requires Inv(s)
    ensures Inv(Written(s, toPart, file))
  {
    var t := Written(s, toPart, file);
    assert s.log <= t.log;
  }

  lemma CheckKeeps(s: State, e: Event)
    requires Inv(s) && (e.Begin? || e.ReadReceipt? || e.StartHash?)
    ensures Inv(Next(s, e))
  {
  }

  lemma HashKeeps(s: State, e: Event)
    requires Inv(s) && (e.EndHash? || e.StampAgain?)
    ensures Inv(Next(s, e))
  {
  }

  lemma PlaceKeeps(s: State, e: Event)
    requires Inv(s) && (e.StampPart? || e.Rename? || e.Compare?)
    ensures Inv(Next(s, e))
  {
  }

  lemma SaveKeeps(s: State, e: Event)
    requires Inv(s) && (e.StampTarget? || e.Save? || e.GiveUp?)
    ensures Inv(Next(s, e))
  {
  }

  lemma NextKeeps(s: State, e: Event)
    requires Inv(s)
    ensures Inv(Next(s, e))
  {
    match e
    case Foreign(toPart, file) => WrittenKeeps(s, toPart, file);
    case Begin(_) => CheckKeeps(s, e);
    case ReadReceipt => CheckKeeps(s, e);
    case StartHash => CheckKeeps(s, e);
    case EndHash(_) => HashKeeps(s, e);
    case StampAgain => HashKeeps(s, e);
    case StampPart => PlaceKeeps(s, e);
    case Rename => PlaceKeeps(s, e);
    case Compare => PlaceKeeps(s, e);
    case _ => SaveKeeps(s, e);
  }

  lemma {:induction false} RunKeeps(s: State, es: seq<Event>)
    requires Inv(s)
    ensures Inv(Run(s, es))
    decreases |es|
  {
    if es != [] {
      NextKeeps(s, es[0]);
      RunKeeps(Next(s, es[0]), es[1..]);
    }
  }

  /**
   In every run, whatever is written in between: when the target's stamp is the stored receipt, by the job's
   check or by the request for the model that already runs, a full rehash would give the catalog's digest,
   unless the download that stored it was raced. Every other stored receipt names such contents.
   */
  lemma HitMeansDigest(es: seq<Event>)
    ensures var s := Run(INIT, es);
      !s.raced && s.receipt.Some? ==>
        && Matches(s, s.receipt.value)
        && (Stamp(s, s.target) == s.receipt ==> s.log[s.target.stamp].matches)
  {
    RunKeeps(INIT, es);
  }

  // ------------------------------------------------------------------ which downloads are raced

  /** Some event of the run hits the verified file. */
  predicate Hit(s: State, es: seq<Event>)
    decreases |es|
  {
    es != [] && (Hits(s, es[0]) || Hit(Next(s, es[0]), es[1..]))
  }

  /** The same write with bytes that have the catalog's digest or not. */
  function WithBytes(e: Event, matches: bool): Event {
    match e
    case Foreign(toPart, Some(w)) => Foreign(toPart, Some((w.0, w.1.(matches := matches))))
    case _ => e
  }

  function Rewritten(es: seq<Event>, bytes: seq<bool>): (r: seq<Event>)
    requires |bytes| == |es|
    ensures |r| == |es|
  {
    if es == [] then [] else [WithBytes(es[0], bytes[0])] + Rewritten(es[1..], bytes[1..])
  }

  /** Behind the verification of a download. */
  predicate Placement(j: Job) {
    j.Idle? || j.Placing? || j.Renamed? || j.Placed? || j.Saving? || (j.Verified? && j.download)
  }

  /** The states differ in the written bytes only. */
  ghost predicate Twin(s: State, t: State) {
    t == s.(log := t.log) && |t.log| == |s.log| && forall i :: 0 <= i < |s.log| ==> t.log[i].sized == s.log[i].sized
  }

  lemma TwinWritten(s: State, t: State, toPart: bool, w: (nat, Content), b: bool)
    requires Stamps(s) && Placement(s.job) && Twin(s, t)
    ensures var n := Written(s, toPart, Some(w));
      Stamps(n) && Placement(n.job) && Twin(n, Written(t, toPart, Some((w.0, w.1.(matches := b)))))
  {
    var v := (w.0, w.1.(matches := b));
    assert Hits(s, Foreign(toPart, Some(w))) == Hits(t, Foreign(toPart, Some(v)));
    if toPart {
      assert Written(s, true, Some(w)).part == Written(t, true, Some(v)).part;
    } else {
      assert Written(s, false, Some(w)).target == Written(t, false, Some(v)).target;
    }
  }

  lemma TwinForeign(s: State, t: State, e: Event, b: bool)
    requires Stamps(s) && Placement(s.job) && e.Foreign? && Twin(s, t)
    ensures Stamps(Next(s, e)) && Placement(Next(s, e).job) && Twin(Next(s, e), Next(t, WithBytes(e, b)))
  {
    if e.file.Some? {
      TwinWritten(s, t, e.toPart, e.file.value, b);
    }
  }

  lemma TwinNext(s: State, t: State, e: Event, b: bool)
    requires Stamps(s) && Placement(s.job) && !e.Begin? && Twin(s, t)
    ensures Stamps(Next(s, e)) && Placement(Next(s, e).job) && Twin(Next(s, e), Next(t, WithBytes(e, b)))
  {
    match e
    case Foreign(_, _) => TwinForeign(s, t, e, b);
    case StampPart =>
    case Rename =>
    case Compare =>
    case StampTarget =>
    case _ =>
  }

  /** Other bytes never change the steps of the placement, nor whether it is hit. */
  lemma {:induction false} TwinRun(s: State, t: State, es: seq<Event>, bytes: seq<bool>)
    requires Stamps(s) && Placement(s.job) && Twin(s, t) && |bytes| == |es|
    requires forall i :: 0 <= i < |es| ==> !es[i].Begin?
    ensures Twin(Run(s, es), Run(t, Rewritten(es, bytes)))
    decreases |es|
  {
    if es != [] {
      var f := WithBytes(es[0], bytes[0]);
      TwinNext(s, t, es[0], bytes[0]);
      assert Rewritten(es, bytes)[1..] == Rewritten(es[1..], bytes[1..]);
      TwinRun(Next(s, es[0]), Next(t, f), es[1..], bytes[1..]);
    }
  }

  predicate Quiet(j: Job) {
    match j
    case Placing(_, _, quiet) => quiet
    case Renamed(_, quiet) => quiet
    case Placed(quiet) => quiet
    case Saving(_, quiet) => quiet
    case _ => true
  }

  /** The job's flag is whether the file was hit. */
  lemma {:induction false} QuietIff(s: State, es: seq<Event>)
    requires Placement(s.job) && Run(s, es).job.Saving?
    requires forall i :: 0 <= i < |es| ==> !es[i].Begin?
    ensures Quiet(Run(s, es).job) == (Quiet(s.job) && !Hit(s, es))
    decreases |es|
  {
    if es != [] {
      assert !es[0].Begin?;
      if Next(s, es[0]).job.Idle? {
        IdleStays(Next(s, es[0]), es[1..]);
      } else {
        QuietIff(Next(s, es[0]), es[1..]);
      }
    }
  }

  lemma {:induction false} IdleStays(s: State, es: seq<Event>)
    requires s.job.Idle? && forall i :: 0 <= i < |es| ==> !es[i].Begin?
    ensures Run(s, es).job.Idle?
    decreases |es|
  {
    if es != [] {
      assert !es[0].Begin?;
      IdleStays(Next(s, es[0]), es[1..]);
    }
  }

  /** Once hit by bytes with another digest, the file stays one with another digest. */
  ghost predicate Spoiled(s: State) {
    match s.job
    case Placing(_, held, quiet) => !quiet && s.part.File? && s.part.inode == held ==> !Matches(s, s.part.stamp)
    case Renamed(held, quiet) => !quiet && s.target.File? && s.target.inode == held ==> !Matches(s, s.target.stamp)
    case Placed(quiet) => !quiet && s.target.File? ==> !Matches(s, s.target.stamp)
    case Saving(after, quiet) => after < |s.log| && (!quiet ==> !Matches(s, after))
    case _ => true
  }

  lemma SpoiledWritten(s: State, toPart: bool, file: Option<(nat, Content)>)
    requires Stamps(s) && Placement(s.job) && Spoiled(s) && (file.Some? ==> !file.value.1.matches)
    ensures var n := Written(s, toPart, file); Stamps(n) && Placement(n.job) && Spoiled(n)
  {
  }

  lemma SpoiledNext(s: State, e: Event)
    requires Stamps(s) && Placement(s.job) && Spoiled(s) && !e.Begin?
    ensures var n := Next(s, WithBytes(e, false)); Stamps(n) && Placement(n.job) && Spoiled(n)
  {
    match e
    case Foreign(toPart, None) => SpoiledWritten(s, toPart, None);
    case Foreign(toPart, Some(w)) => SpoiledWritten(s, toPart, Some((w.0, w.1.(matches := false))));
    case Rename =>
    case _ =>
  }

  lemma {:induction false} SpoiledRun(s: State, es: seq<Event>, bytes: seq<bool>)
    requires Stamps(s) && Placement(s.job) && Spoiled(s)
    requires |bytes| == |es| && forall i :: 0 <= i < |es| ==> !es[i].Begin? && !bytes[i]
    ensures Spoiled(Run(s, Rewritten(es, bytes)))
    decreases |es|
  {
    if es != [] {
      assert !es[0].Begin? && !bytes[0];
      SpoiledNext(s, es[0]);
      assert Rewritten(es, bytes)[1..] == Rewritten(es[1..], bytes[1..]);
      SpoiledRun(Next(s, WithBytes(es[0], false)), es[1..], bytes[1..]);
    }
  }

  /** The bytes of the placement's foreign writes do not matter for the digest of what the receipt will name. */
  ghost predicate AlwaysVerified(s: State, es: seq<Event>) {
    forall bytes: seq<bool> | |bytes| == |es| :: Stores(Run(s, Rewritten(es, bytes)))
  }

  /** The job is about to store a receipt for contents with the catalog's digest. */
  ghost predicate Stores(s: State) {
    s.job.Saving? && Matches(s, s.job.after)
  }

  lemma UnhitStores(s: State, es: seq<Event>, bytes: seq<bool>)
    requires Inv(s) && s.job.Verified? && s.job.download && Run(s, es).job.Saving? && |bytes| == |es| && !Hit(s, es)
    requires forall i :: 0 <= i < |es| ==> !es[i].Begin?
    ensures Stores(Run(s, Rewritten(es, bytes)))
  {
    QuietIff(s, es);
    TwinRun(s, s, es, bytes);
    RunKeeps(s, Rewritten(es, bytes));
  }

  lemma HitSpoils(s: State, es: seq<Event>, bytes: seq<bool>)
    requires Inv(s) && s.job.Verified? && s.job.download && Run(s, es).job.Saving? && |bytes| == |es| && Hit(s, es)
    requires forall i :: 0 <= i < |es| ==> !es[i].Begin? && !bytes[i]
    ensures !Stores(Run(s, Rewritten(es, bytes)))
  {
    QuietIff(s, es);
    TwinRun(s, s, es, bytes);
    SpoiledRun(s, es, bytes);
  }

  /**
   A verified download that reaches its save, behind any history and with any foreign writes in between: the
   receipt names contents with the catalog's digest whatever bytes are written, exactly when no write hits the
   verified file between the last stamp of the part and the comparison, nor the target from there to its stamp.
   */
  lemma {:induction false} VerifiedIffNotHit(history: seq<Event>, es: seq<Event>)
    requires var s := Run(INIT, history); s.job.Verified? && s.job.download && Run(s, es).job.Saving?
    requires forall i :: 0 <= i < |es| ==> !es[i].Begin?
    ensures AlwaysVerified(Run(INIT, history), es) <==> !Hit(Run(INIT, history), es)
  {
    var s := Run(INIT, history);
    RunKeeps(INIT, history);
    forall bytes: seq<bool> | |bytes| == |es| && !Hit(s, es)
      ensures Stores(Run(s, Rewritten(es, bytes)))
    {
      UnhitStores(s, es, bytes);
    }
    if Hit(s, es) {
      var bytes := seq(|es|, _ => false);
      HitSpoils(s, es, bytes);
      assert !Stores(Run(s, Rewritten(es, bytes)));
    }
  }

  /** The place of the job in a selection. */
  predicate Selecting(j: Job) {
    match j
    case Stamped(download, _) => !download
    case Checked(download, _, _) => !download
    case Hashing(download, _, _) => !download
    case Hashed(download, _, _, _) => !download
    case Verified(download, _, _) => !download
    case Idle => true
    case _ => false
  }

  /** Selections alone never race, however often the files are written. */
  lemma {:induction false} SelectionsNeverRace(s: State, es: seq<Event>)
    requires !s.raced && Selecting(s.job) && forall i :: 0 <= i < |es| ==> es[i] != Begin(true)
    ensures !Run(s, es).raced
    decreases |es|
  {
    if es != [] {
      assert es[0] != Begin(true);
      SelectionsNeverRace(Next(s, es[0]), es[1..]);
    }
  }

  // ------------------------------------------------------------------ when a job ends early

  /** What the next step of the job relies on does not hold. */
  predicate Fails(s: State, e: Event) {
    match s.job
    case Checked(_, before, cached) => e.StartHash? && !cached && before == None
    case Hashed(download, before, _, hash) =>
      e.StampAgain? && !(hash && before.Some? && Stamp(s, if download then s.part else s.target) == before)
    case Verified(true, stamp, _) => e.StampPart? && Stamp(s, s.part) != Some(stamp)
    case Placing(_, _, _) => e.Rename? && s.part.Missing?
    case Renamed(held, _) => e.Compare? && (s.target.Missing? || s.target.inode != held)
    case Placed(_) => e.StampTarget? && Stamp(s, s.target) == None
    case _ => false
  }

  /** A job that is cancelled, or whose step finds something else than it relies on, ends and stores nothing. */
  lemma FailureEnds(history: seq<Event>, e: Event)
    ensures var s := Run(INIT, history);
      e.GiveUp? || Fails(s, e) ==> Next(s, e) == s.(job := Idle)
  {
    RunKeeps(INIT, history);
  }

  /** Only the two saves store a receipt. */
  lemma OnlySavesStore(s: State, e: Event)
    ensures Next(s, e).receipt != s.receipt ==>
      e.Save? && (s.job.Saving? || (s.job.Verified? && !s.job.download && !s.job.cached))
  {
  }

  // ------------------------------------------------------------------ when the cache is hit

  lemma {:induction false} ForeignRun(s: State, es: seq<Event>)
    requires s.job.Idle? && Stamps(s) && forall i :: 0 <= i < |es| ==> es[i].Foreign?
    ensures var t := Run(s, es);
      && t.job.Idle? && Stamps(t) && t.receipt == s.receipt && s.log <= t.log
      && (if forall i :: 0 <= i < |es| ==> es[i].toPart then t.target == s.target
          else t.target.File? ==> t.target.stamp >= |s.log|)
    decreases |es|
  {
    if es != [] {
      assert es[0].Foreign?;
      ForeignRun(Next(s, es[0]), es[1..]);
      assert (forall i :: 0 <= i < |es| ==> es[i].toPart) <==>
        es[0].toPart && forall i :: 0 <= i < |es[1..]| ==> es[1..][i].toPart by {
        assert forall i :: 0 < i < |es| ==> es[i] == es[1..][i - 1];
      }
    }
  }

  function Selected(t: State): State {
    Next(Next(t, Begin(false)), ReadReceipt)
  }

  /** A selection trusts the receipt exactly when it is the target's stamp, and reads any other file of the right size. */
  lemma SelectionTrusts(t: State)
    requires t.job.Idle?
    ensures var u := Selected(t);
      && u.job.Checked? && !u.job.download
      && (u.job.cached <==> t.receipt.Some? && Stamp(t, t.target) == t.receipt)
      && (u.job.cached ==> Next(Next(u, StartHash), StampAgain).job == Verified(false, t.receipt.value, true))
      && (!u.job.cached ==> Next(u, StartHash).job.Hashing? == Stamp(t, t.target).Some?)
  {
  }

  /**
   The target stands at the stored receipt, and then anybody writes: the next selection is a hit, without reading the
   file, exactly when nobody touched the target. Else it is read again, if it still has the model's size.
   */
  lemma HitIffUntouched(history: seq<Event>, es: seq<Event>)
    requires var s := Run(INIT, history); s.job.Idle? && s.receipt.Some? && Stamp(s, s.target) == s.receipt
    requires forall i :: 0 <= i < |es| ==> es[i].Foreign?
    ensures var s := Run(INIT, history);
      var u := Selected(Run(s, es));
      && u.job.Checked?
      && (u.job.cached <==> forall i :: 0 <= i < |es| ==> es[i].toPart)
      && (u.job.cached ==> Next(Next(u, StartHash), StampAgain).job == Verified(false, s.receipt.value, true))
  {
    RunKeeps(INIT, history);
    var s := Run(INIT, history);
    ForeignRun(s, es);
    var t := Run(s, es);
    SelectionTrusts(t);
    StampStands(s, t);
  }

  lemma StampStands(s: State, t: State)
    requires Stamps(s) && s.receipt.Some? && Stamp(s, s.target) == s.receipt == t.receipt && s.log <= t.log
    ensures t.target == s.target ==> Stamp(t, t.target) == t.receipt
    ensures (t.target.File? ==> t.target.stamp >= |s.log|) ==> Stamp(t, t.target) != t.receipt
  {
  }

  /** A file of the right size and digest that nobody touches is verified, and its receipt makes the next selection a hit. */
  lemma VerifiedOnceHits(history: seq<Event>)
    requires var s := Run(INIT, history); s.job.Idle? && Stamp(s, s.target).Some? && s.log[s.target.stamp].matches
    ensures var s := Run(INIT, history);
      var c := Next(Next(s, Begin(false)), ReadReceipt);
      var v := Next(Next(Next(c, StartHash), EndHash(true)), StampAgain);
      && v.job == Verified(false, s.target.stamp, c.job.cached)
      && (!c.job.cached ==> Next(v, Save) == v.(receipt := Stamp(s, s.target), raced := false, job := Idle))
      && (c.job.cached <==> s.receipt == Stamp(s, s.target))
  {
    RunKeeps(INIT, history);
  }

  /** So does an undisturbed download of such a part: it becomes the target under a receipt that hits. */
  lemma DownloadOnceHits(history: seq<Event>)
    requires var s := Run(INIT, history); s.job.Idle? && Stamp(s, s.part).Some? && s.log[s.part.stamp].matches
    ensures var s := Run(INIT, history);
      var v := Next(Next(Next(Next(Next(s, Begin(true)), ReadReceipt), StartHash), EndHash(true)), StampAgain);
      var p := Next(Next(Next(Next(Next(v, StampPart), Rename), Compare), StampTarget), Save);
      && v == s.(job := Verified(true, s.part.stamp, false))
      && p.job.Idle? && p.part.Missing? && p.target.File? && p.target.inode == s.part.inode
      && p.receipt.Some? && p.receipt == Stamp(p, p.target) && Matches(p, p.receipt.value) && !p.raced
  {
    RunKeeps(INIT, history);
    var s := Run(INIT, history);
    PartVerified(s);
    PartPlaced(s);
  }

  lemma PartVerified(s: State)
    requires s.job.Idle? && Stamp(s, s.part).Some? && s.log[s.part.stamp].matches
    ensures Next(Next(Next(Next(Next(s, Begin(true)), ReadReceipt), StartHash), EndHash(true)), StampAgain)
      == s.(job := Verified(true, s.part.stamp, false))
  {
    var a := Next(Next(s, Begin(true)), ReadReceipt);
    assert a == s.(job := Checked(true, Some(s.part.stamp), false));
    var b := Next(Next(a, StartHash), EndHash(true));
    assert b == s.(job := Hashed(true, Some(s.part.stamp), false, true));
  }

  lemma PartPlaced(s: State)
    requires Stamp(s, s.part).Some? && s.log[s.part.stamp].matches
    ensures var v := s.(job := Verified(true, s.part.stamp, false));
      var p := Next(Next(Next(Next(Next(v, StampPart), Rename), Compare), StampTarget), Save);
      && p.job.Idle? && p.part.Missing? && p.target.File? && p.target.inode == s.part.inode
      && p.receipt.Some? && p.receipt == Stamp(p, p.target) && Matches(p, p.receipt.value) && !p.raced
  {
    var v := s.(job := Verified(true, s.part.stamp, false));
    var a := Next(Next(Next(v, StampPart), Rename), Compare);
    assert a == s.(log := s.log + [s.log[s.part.stamp]], target := File(s.part.inode, |s.log|), part := Missing, job := Placed(true));
  }

  lemma {:induction false} RunConcat(s: State, a: seq<Event>, b: seq<Event>)
    ensures Run(s, a + b) == Run(Run(s, a), b)
    decreases |a|
  {
    if a == [] {
      assert a + b == b;
    } else {
      assert (a + b)[0] == a[0] && (a + b)[1..] == a[1..] + b;
      RunConcat(Next(s, a[0]), a[1..], b);
    }
  }

  lemma RunThree(s: State, c: Event, d: Event, e: Event)
    ensures Run(s, [c, d, e]) == Next(Next(Next(s, c), d), e)
  {
    var t := Next(Next(Next(s, c), d), e);
    assert [e][1..] == [] && Run(t, []) == t;
    assert Run(Next(Next(s, c), d), [e]) == t;
    assert [d, e][1..] == [e];
    assert Run(Next(s, c), [d, e]) == t;
    assert [c, d, e][1..] == [d, e];
  }

  /** A download is prepared and verified ... */
  const PREPARE: seq<Event> := [Foreign(true, Some((1, Content(true, true)))), Begin(true), ReadReceipt]
  const VERIFY: seq<Event> := [StartHash, EndHash(true), StampAgain]
  /** ... and written in place between the rename and the comparison, or replaced between that and the last stamp. */
  const PLACE: seq<Event> := [StampPart, Rename, Foreign(false, Some((1, Content(true, false))))]
  const STORE: seq<Event> := [Compare, StampTarget, Save]
  const PLACED: seq<Event> := [StampPart, Rename, Compare]
  const REPLACED: seq<Event> := [Foreign(false, Some((2, Content(true, false)))), StampTarget, Save]

  const CHECKED := State([Content(true, true)], Missing, File(1, 0), None, Checked(true, Some(0), false), false)
  const VERIFIED := CHECKED.(job := Verified(true, 0, false))
  const LOG: seq<Content> := [Content(true, true), Content(true, true)]

  lemma Prepares()
    ensures Run(INIT, PREPARE + VERIFY) == VERIFIED
  {
    RunThree(INIT, Foreign(true, Some((1, Content(true, true)))), Begin(true), ReadReceipt);
    assert Run(INIT, PREPARE) == CHECKED;
    RunConcat(INIT, PREPARE, VERIFY);
    RunThree(CHECKED, StartHash, EndHash(true), StampAgain);
  }

  lemma Places()
    ensures Run(VERIFIED, PLACE) == State(LOG + [Content(true, false)], File(1, 2), Missing, None, Renamed(1, false), false)
    ensures Run(VERIFIED, PLACED) == State(LOG, File(1, 1), Missing, None, Placed(true), false)
  {
    RunThree(VERIFIED, StampPart, Rename, Foreign(false, Some((1, Content(true, false)))));
    RunThree(VERIFIED, StampPart, Rename, Compare);
  }

  /** The first write makes a download store a receipt for other contents that are then a hit ... */
  lemma RacedDownload()
    ensures var s := Run(INIT, PREPARE + VERIFY + (PLACE + STORE));
      s.receipt.Some? && Stamp(s, s.target) == s.receipt && !Matches(s, s.receipt.value)
  {
    Prepares();
    Places();
    RunConcat(INIT, PREPARE + VERIFY, PLACE + STORE);
    RunConcat(VERIFIED, PLACE, STORE);
    RunThree(Run(VERIFIED, PLACE), Compare, StampTarget, Save);
  }

  /** ... and so does the second. */
  lemma ReplacedDownload()
    ensures var s := Run(INIT, PREPARE + VERIFY + (PLACED + REPLACED));
      s.receipt.Some? && Stamp(s, s.target) == s.receipt && !Matches(s, s.receipt.value)
  {
    Prepares();
    Places();
    RunConcat(INIT, PREPARE + VERIFY, PLACED + REPLACED);
    RunConcat(VERIFIED, PLACED, REPLACED);
    var s := Run(VERIFIED, PLACED);
    RunThree(s, Foreign(false, Some((2, Content(true, false)))), StampTarget, Save);
    assert Next(s, Foreign(false, Some((2, Content(true, false))))).target == File(2, 2);
  }
}
