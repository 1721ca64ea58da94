/**
  Certificate bundles: the metadata of src/nxt_cert.c that the controller keeps,
  and the files that a store child of main writes and removes.  A bundle is its
  digest.
 */
module CertStore {
  import opened Bytes

  datatype Info = Info(digest: nat, unapplied: bool)

  /** What the controller waits for. */
  datatype Flight =
    | Nothing
    | Storing(name: nat, info: Info, before: Option<Info>)
    | Applying(name: nat)
    | Deleting(name: nat)

  datatype Certs = Certs(infos: map<nat, Info>, disk: map<nat, nat>, flight: Flight)

  /** Settled: the bundle is not in use, or no router is ready, so there is nothing to apply. */
  datatype Event =
    | Upload(name: nat, digest: nat)
    | Stored
    | StoreFailed(renamed: bool)
    | Applied(ok: bool)
    | Settled
    | Remove(name: nat)
    | Removed
    | RemoveFailed

  /** nxt_cert_info_equal() */
  predicate Equal(s: Certs, name: nat, digest: nat) {
    name in s.infos && !s.infos[name].unapplied && s.infos[name].digest == digest
  }

  /** nxt_cert_info_replace(): the metadata before is kept aside. */
  function Replace(infos: map<nat, Info>, name: nat, info: Info): (map<nat, Info>, Option<Info>) {
    (infos[name := info], if name in infos then Some(infos[name]) else None)
  }

  /** nxt_cert_info_restore(): the file can hold either bundle, so the old metadata is not to be trusted. */
  function Restore(infos: map<nat, Info>, name: nat, before: Option<Info>): map<nat, Info> {
    if before.Some? then infos[name := before.value.(unapplied := true)] else infos - {name}
  }

  /** nxt_cert_info_applied() */
  function MarkApplied(infos: map<nat, Info>, name: nat, ok: bool): map<nat, Info> {
    if name in infos then infos[name := infos[name].(unapplied := !ok)] else infos
  }

  function Next(s: Certs, e: Event): Certs {
    match e
    case Upload(name, digest) =>
      var info := Info(digest, false);
      var (infos, before) := Replace(s.infos, name, info);
      s.(infos := infos, flight := Storing(name, info, before))
    case Stored =>
      if s.flight.Storing? then
        s.(disk := s.disk[s.flight.name := s.flight.info.digest], flight := Applying(s.flight.name))
      else s
    case StoreFailed(renamed) =>
      if s.flight.Storing? then
        Certs(Restore(s.infos, s.flight.name, s.flight.before),
              if renamed then s.disk[s.flight.name := s.flight.info.digest] else s.disk, Nothing)
      else s
    case Applied(ok) =>
      if s.flight.Applying? then s.(infos := MarkApplied(s.infos, s.flight.name, ok), flight := Nothing) else s
    case Settled => if s.flight.Applying? then s.(flight := Nothing) else s
    case Remove(name) => s.(flight := Deleting(name))
    case Removed =>
      if s.flight.Deleting? then Certs(s.infos - {s.flight.name}, s.disk - {s.flight.name}, Nothing) else s
    case RemoveFailed => if s.flight.Deleting? then s.(flight := Nothing) else s
  }

  /** Nothing starts while something is in flight, and only what is in flight ends; CertRuns has this from the controller. */
  predicate Fits(s: Certs, e: Event) {
    match e
    case Upload(_, _) => s.flight == Nothing
    case Remove(_) => s.flight == Nothing
    case Stored => s.flight.Storing?
    case StoreFailed(_) => s.flight.Storing?
    case Applied(_) => s.flight.Applying?
    case Settled => s.flight.Applying?
    case Removed => s.flight.Deleting?
    case RemoveFailed => s.flight.Deleting?
  }

  /** The file of the name holds the bundle that its metadata describes. */
  predicate OnDisk(s: Certs, name: nat) {
    name in s.infos && name in s.disk && s.disk[name] == s.infos[name].digest
  }

  predicate Busy(s: Certs, name: nat) { s.flight.Storing? && s.flight.name == name }

  ghost predicate Inv(s: Certs) {
    && (forall name :: name in s.infos && !s.infos[name].unapplied && !Busy(s, name) ==> OnDisk(s, name))
    && (s.flight.Storing? ==>
          && s.flight.name in s.infos && s.infos[s.flight.name] == s.flight.info
          && (s.flight.before.Some? && !s.flight.before.value.unapplied ==>
                s.flight.name in s.disk && s.disk[s.flight.name] == s.flight.before.value.digest))
    && (s.flight.Applying? ==> OnDisk(s, s.flight.name))
  }

  lemma NextKeeps(s: Certs, e: Event)
    requires Inv(s) && Fits(s, e)
    ensures Inv(Next(s, e))
  {
  }

  function Run(s: Certs, events: seq<Event>): Certs
    decreases |events|
  {
    if events == [] then s else Next(Run(s, events[..|events| - 1]), events[|events| - 1])
  }

  ghost predicate FitsRun(s: Certs, events: seq<Event>)
    decreases |events|
  {
    events == [] || (FitsRun(s, events[..|events| - 1]) && Fits(Run(s, events[..|events| - 1]), events[|events| - 1]))
  }

  lemma {:induction false} RunKeeps(s: Certs, events: seq<Event>)
    requires Inv(s) && FitsRun(s, events)
    ensures Inv(Run(s, events))
    decreases |events|
  {
    hide Inv, Fits, Next;
    if events != [] {
      RunKeeps(s, events[..|events| - 1]);
      NextKeeps(Run(s, events[..|events| - 1]), events[|events| - 1]);
    }
  }

  /** At start the metadata is read from the files. */
  ghost predicate Loaded(s: Certs) {
    s.flight == Nothing && s.infos.Keys == s.disk.Keys
    && forall name :: name in s.infos ==> s.infos[name] == Info(s.disk[name], false)
  }

  /**
    In every run of stores, failures, rollbacks and deletes: when nothing is in flight and the metadata of a
    name is not marked, the file of that name holds the bundle with that digest.  So an upload that is
    skipped because it is equal would have written the same bundle.
   */
  lemma EqualUploadIsSafe(s0: Certs, events: seq<Event>, name: nat, digest: nat)
    requires Loaded(s0) && FitsRun(s0, events)
    ensures var s := Run(s0, events);
            && (s.flight == Nothing && name in s.infos && !s.infos[name].unapplied ==> OnDisk(s, name))
            && (s.flight == Nothing && Equal(s, name, digest) ==>
                  name in s.disk && s.disk[name] == digest && Next(Next(s, Upload(name, digest)), Stored).disk == s.disk)
  {
    hide Run, FitsRun;
    RunKeeps(s0, events);
  }

  /** A failed store gives back the names there were, and marks the name it could not replace. */
  lemma FailedStoreRestores(s: Certs, name: nat, digest: nat, renamed: bool)
    ensures var s' := Next(Next(s, Upload(name, digest)), StoreFailed(renamed));
            && s'.flight == Nothing && s'.infos.Keys == s.infos.Keys
            && (forall x :: x in s.infos && x != name ==> s'.infos[x] == s.infos[x])
            && (name in s.infos ==> s'.infos[name] == s.infos[name].(unapplied := true))
            && (forall x :: x != name ==> (x in s'.disk <==> x in s.disk) && (x in s.disk ==> s'.disk[x] == s.disk[x]))
  {
    var s1 := Next(s, Upload(name, digest));
    var s' := Next(s1, StoreFailed(renamed));
    if name in s.infos {
      assert s'.infos == s.infos[name := s.infos[name].(unapplied := true)];
    } else {
      assert s'.infos == s.infos;
    }
  }

  /** The mark is needed: after a failed store the metadata can name a bundle that is no longer in the file. */
  lemma FailedStoreCanDiffer()
    ensures exists s: Certs, name: nat, digest: nat ::
              Inv(s) && s.flight == Nothing && name in s.infos && !s.infos[name].unapplied
              && var s' := Next(Next(s, Upload(name, digest)), StoreFailed(true));
                 name in s'.infos && !OnDisk(s', name)
  {
    var s := Certs(map[0 := Info(1, false)], map[0 := 1], Nothing);
    assert Inv(s);
    var s' := Next(Next(s, Upload(0, 2)), StoreFailed(true));
    assert s'.infos[0] == Info(1, true) && s'.disk[0] == 2;
    assert Inv(s) && s.flight == Nothing && 0 in s.infos && !s.infos[0].unapplied && 0 in s'.infos && !OnDisk(s', 0);
  }

  /** A delete takes the name out of the metadata and the files, and nothing else; one that fails takes nothing. */
  lemma DeleteRemoves(s: Certs, name: nat)
    ensures var s' := Next(Next(s, Remove(name)), Removed);
            && s'.flight == Nothing && name !in s'.infos && name !in s'.disk
            && (forall x :: x != name ==> (x in s'.infos <==> x in s.infos) && (x in s'.disk <==> x in s.disk))
            && (forall x :: x in s'.infos ==> s'.infos[x] == s.infos[x])
            && (forall x :: x in s'.disk ==> s'.disk[x] == s.disk[x])
    ensures var s' := Next(Next(s, Remove(name)), RemoveFailed);
            s'.flight == Nothing && s'.infos == s.infos && s'.disk == s.disk
  {
  }

  /** The name is gone, and nothing in flight brings it back. */
  ghost predicate Gone(s: Certs, name: nat) {
    name !in s.infos && name !in s.disk && (s.flight.Storing? || s.flight.Applying? ==> s.flight.name != name)
  }

  /** In every run, a bundle that was deleted stays deleted until its name is uploaded again. */
  lemma {:induction false} DeletedStaysDeleted(s: Certs, name: nat, later: seq<Event>)
    requires s.flight == Deleting(name)
    requires forall i :: 0 <= i < |later| ==> !(later[i].Upload? && later[i].name == name)
    ensures Gone(Run(Next(s, Removed), later), name)
    decreases |later|
  {
    var n := |later| - 1;
    if later != [] {
      DeletedStaysDeleted(s, name, later[..n]);
      assert !(later[n].Upload? && later[n].name == name);
      GoneStays(Run(Next(s, Removed), later[..n]), later[n], name);
    }
  }

  lemma GoneStays(s: Certs, e: Event, name: nat)
    requires Gone(s, name) && !(e.Upload? && e.name == name)
    ensures Gone(Next(s, e), name)
  {
  }

  /** The metadata that the controller keeps, a hash in nxt_cert.c. */
  class Metadata {
    var infos: map<nat, Info>

    constructor (infos: map<nat, Info>)
      ensures this.infos == infos
    {
      this.infos := infos;
    }

    method IsEqual(name: nat, digest: nat) returns (equal: bool)
      ensures equal <==> name in infos && infos[name] == Info(digest, false)
    {
      if name !in infos || infos[name].unapplied { return false; }
      return infos[name].digest == digest;
    }

    function Find(name: nat): Option<Info>
      reads this
    {
      if name in infos then Some(infos[name]) else None
    }

    /** The name is found with its new metadata, every other as before; what was there is handed back. */
    method Insert(name: nat, info: Info) returns (before: Option<Info>)
      modifies this
      ensures before == old(Find(name)) && Find(name) == Some(info)
      ensures forall x :: x != name ==> Find(x) == old(Find(x))
      ensures infos == Replace(old(infos), name, info).0
    {
      before := if name in infos then Some(infos[name]) else None;
      infos := infos[name := info];
    }

    /** The name is found as it was before, and no upload of it counts as equal. */
    method PutBack(name: nat, before: Option<Info>)
      modifies this
      ensures Find(name).Some? <==> before.Some?
      ensures before.Some? ==> Find(name).value.digest == before.value.digest && Find(name).value.unapplied
      ensures forall digest :: Find(name) != Some(Info(digest, false))
      ensures forall x :: x != name ==> Find(x) == old(Find(x))
      ensures infos == Restore(old(infos), name, before)
    {
      if before.Some? {
        infos := infos[name := before.value.(unapplied := true)];
      } else {
        infos := infos - {name};
      }
    }

    /** A store that fails, from the upload to the rollback: only the mark of this name is different. */
    method FailStore(name: nat, digest: nat)
      modifies this
      ensures infos.Keys == old(infos).Keys
      ensures forall x :: x in infos && x != name ==> infos[x] == old(infos)[x]
      ensures name in infos ==> infos[name] == old(infos)[name].(unapplied := true)
    {
      var before := Insert(name, Info(digest, false));
      PutBack(name, before);
    }

    /** A repeated upload of the bundle counts as equal exactly if the router took it. */
    method Applied(name: nat, ok: bool)
      modifies this
      ensures Find(name).Some? <==> old(Find(name)).Some?
      ensures Find(name).Some? ==>
                && Find(name).value.digest == old(Find(name)).value.digest
                && (Find(name) == Some(Info(Find(name).value.digest, false)) <==> ok)
      ensures forall x :: x != name ==> Find(x) == old(Find(x))
      ensures infos == MarkApplied(old(infos), name, ok)
    {
      if name in infos { infos := infos[name := infos[name].(unapplied := !ok)]; }
    }
  }
}
