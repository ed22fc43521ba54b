/**
 Publication of the policy: the wasm, then the manifest that names it, each through a temporary file and a rename,
 then the removal of the wasms no longer named. Every single file step may fail; a crash stops after any of them.
 */
module PolicyPublish {
  import opened Basics

  type Bytes = seq<Byte>

  /** sha256 taken as injective; no policy has no hash. */
  datatype Hash = NoPolicy | Sha(wasm: Bytes)

  /** Which policy is named, and in which file. Files are named after their policy's hash. */
  datatype Manifest = Manifest(version: nat, hash: Hash, entrypoint: string, file: Hash)

  datatype Policy = Policy(wasm: Bytes, version: nat, entrypoint: string)

  const DEFAULT_ENTRYPOINT := "router/target"

  /** The synced folder, temporary files aside. */
  datatype Folder = Folder(manifest: Option<Manifest>, wasms: map<Hash, Bytes>)

  /** The policy that runs: an empty wasm is none. */
  function Running(p: Option<Policy>): Option<Policy> {
    if p.Some? && p.value.wasm != [] then p else None
  }

  function HashOf(p: Option<Policy>): Hash {
    if Running(p).Some? then Sha(p.value.wasm) else NoPolicy
  }

  function ManifestOf(p: Option<Policy>): Manifest {
    match Running(p)
    case None => Manifest(0, NoPolicy, "", NoPolicy)
    case Some(q) =>
      Manifest(if q.version == 0 then 1 else q.version, Sha(q.wasm),
               if q.entrypoint == "" then DEFAULT_ENTRYPOINT else q.entrypoint,
               Sha(q.wasm))
  }

  /** What the replicas are to run for p: version 1 and the routers' own entrypoint stand in for missing ones. */
  function Wanted(p: Policy): Policy {
    Policy(p.wasm, if p.version == 0 then 1 else p.version,
           if p.entrypoint == "" then "router/target" else p.entrypoint)
  }

  /** The manifest asks for exactly that, in the file of that wasm; without a policy it names none. */
  predicate Names(m: Manifest, p: Option<Policy>) {
    if p.None? || p.value.wasm == [] then m.hash == NoPolicy && m.version == 0 && m.entrypoint == ""
    else m.hash == m.file == Sha(p.value.wasm) && Policy(p.value.wasm, m.version, m.entrypoint) == Wanted(p.value)
  }

  /** Absent, naming no policy, or naming a wasm that is there with exactly the named hash. */
  predicate Sound(f: Folder) {
    f.manifest.Some? && f.manifest.value.hash != NoPolicy ==>
      f.manifest.value.file in f.wasms && Sha(f.wasms[f.manifest.value.file]) == f.manifest.value.hash
  }

  // ---- file steps ----

  datatype FileStep =
    | RenameWasm(name: Hash, data: Bytes)
    | RenameManifest(m: Manifest)
    | Remove(name: Hash)
    | Elsewhere                         // a temporary file, a failed step, an owner change

  function After(f: Folder, s: FileStep): Folder {
    match s
    case RenameWasm(name, data) => f.(wasms := f.wasms[name := data])
    case RenameManifest(m) => f.(manifest := Some(m))
    case Remove(name) => f.(wasms := f.wasms - {name})
    case Elsewhere => f
  }

  /** Every manifest a publisher writes names the file after the hash. */
  predicate OwnNames(f: Folder) {
    f.manifest.Some? && f.manifest.value.hash != NoPolicy ==> f.manifest.value.file == f.manifest.value.hash
  }

  predicate Good(f: Folder) { Sound(f) && OwnNames(f) }

  /** Good after each step, so good wherever a crash stops them. */
  predicate AllGood(trail: seq<Folder>) { forall i :: 0 <= i < |trail| ==> Good(trail[i]) }

  /** The files that stay while these are still to be removed. */
  function KeptFiles(files: map<Hash, Bytes>, keep: Hash, todo: set<Hash>, io: Hash -> bool): map<Hash, Bytes> {
    map h | h in files && (h == keep || h in todo || !io(h)) :: files[h]
  }

  lemma KeptStep(files: map<Hash, Bytes>, keep: Hash, todo: set<Hash>, io: Hash -> bool, name: Hash)
    requires name in todo && name != keep
    ensures KeptFiles(files, keep, todo - {name}, io) ==
      if io(name) then KeptFiles(files, keep, todo, io) - {name} else KeptFiles(files, keep, todo, io)
  {
  }

  /** The manifest cannot be read, or does not name the policy that runs. */
  predicate NeedsPublishing(f: Folder, installed: Option<Policy>, readable: bool) {
    !readable || f.manifest.None? || f.manifest.value.hash != HashOf(installed)
  }

  /** A folder with the right manifest and no wasm is not sound, and is not published again. */
  lemma MissingWasmStays(p: Policy)
    requires p.wasm != []
    ensures
      var f := Folder(Some(ManifestOf(Some(p))), map[]);
      OwnNames(f) && !Sound(f) && !NeedsPublishing(f, Some(p), true)
  {
  }

  // ---- the publisher ----

  class Publisher {
    var manifest: Option<Manifest>
    var wasms: map<Hash, Bytes>
    ghost var steps: seq<FileStep>      // every file step so far
    ghost var trail: seq<Folder>        // and the folder before the first and after each

    ghost function View(): Folder
      reads this
    {
      Folder(manifest, wasms)
    }

    /** The folder changes by single file steps only, all on the trail. */
    ghost predicate Valid()
      reads this
    {
      && |trail| == |steps| + 1 && trail[|steps|] == View()
      && forall i :: 0 <= i < |steps| ==> trail[i + 1] == After(trail[i], steps[i])
    }

    constructor (m: Option<Manifest>, files: map<Hash, Bytes>)
      ensures Valid() && View() == Folder(m, files) && trail == [Folder(m, files)]
    {
      manifest, wasms, steps, trail := m, files, [], [Folder(m, files)];
    }

    /** One file step. */
    method Do(s: FileStep)
      requires Valid()
      modifies this
      ensures Valid() && View() == After(old(View()), s) && trail == old(trail) + [View()]
    {
      match s {
        case RenameWasm(name, data) => wasms := wasms[name := data];
        case RenameManifest(m) => manifest := Some(m);
        case Remove(name) => wasms := wasms - {name};
        case Elsewhere =>
      }
      steps, trail := steps + [s], trail + [View()];
    }

    method RemoveOne(name: Hash, gone: bool)
      requires Valid() && Sound(View()) && (manifest.Some? ==> manifest.value.file != name)
      modifies this
      ensures Valid()
      ensures manifest == old(manifest) && wasms == (if gone then old(wasms) - {name} else old(wasms)) && Sound(View())
      ensures old(trail) <= trail && (AllGood(old(trail)) && OwnNames(old(View())) ==> AllGood(trail))
    {
      if gone {
        Do(Remove(name));
      }
    }

    /** Only the named wasm stays; a removal that fails is passed over. */
    method RemoveOthers(keep: Hash, io: Hash -> bool)
      requires Valid() && Sound(View()) && manifest.Some? && manifest.value.file == keep
      modifies this
      ensures Valid()
      ensures manifest == old(manifest) && Sound(View()) && wasms == KeptFiles(old(wasms), keep, {}, io)
      ensures old(trail) <= trail && (AllGood(old(trail)) && OwnNames(old(View())) ==> AllGood(trail))
    {
      var todo := wasms.Keys - {keep};
      assert wasms == KeptFiles(wasms, keep, todo, io);
      while todo != {}
        invariant Valid() && manifest == old(manifest) && Sound(View()) && keep !in todo
        invariant wasms == KeptFiles(old(wasms), keep, todo, io)
        invariant old(trail) <= trail && (AllGood(old(trail)) && OwnNames(old(View())) ==> AllGood(trail))
        decreases |todo|
      {
        var name :| name in todo;
        KeptStep(old(wasms), keep, todo, io, name);
        RemoveOne(name, io(name));
        todo := todo - {name};
      }
    }

    /** The running policy, or its absence, is published. Whatever fails, and wherever a crash stops it, a sound folder
        stays sound; a publication that ends names the running policy, from any folder. */
    method Publish(p: Option<Policy>, io: nat -> bool, removals: Hash -> bool) returns (ok: bool)
      requires Valid()
      modifies this
      ensures Valid()
      ensures old(trail) <= trail
      ensures Good(old(View())) && AllGood(old(trail)) ==> AllGood(trail) && Good(View())
      ensures ok ==> manifest == Some(ManifestOf(p)) && Names(manifest.value, p) && Good(View())
      ensures ok ==> forall h :: h in wasms ==> h == HashOf(p) || !removals(h)
      ensures !ok ==> manifest == old(manifest)
      ensures ok <==> (Running(p).Some? ==> io(0) && io(1)) && io(2) && io(3)
    {
      var m := ManifestOf(p);
      ok := WriteWasm(p, io(0), io(1));
      if !ok {
        return;
      }
      ok := WriteManifest(m, io(2), io(3));
      if !ok {
        return;
      }
      RemoveOthers(m.file, removals);
    }

    /** Temporary file, then rename; either may fail. */
    method WriteWasm(p: Option<Policy>, written: bool, renamed: bool) returns (ok: bool)
      requires Valid()
      modifies this
      ensures Valid()
      ensures old(trail) <= trail && manifest == old(manifest) && (ok <==> (Running(p).Some? ==> written && renamed))
      ensures Good(old(View())) && AllGood(old(trail)) ==> AllGood(trail) && Good(View())
      ensures ok && Running(p).Some? ==> HashOf(p) in wasms && wasms[HashOf(p)] == p.value.wasm
    {
      if Running(p).None? {
        return true;
      }
      var name := Sha(p.value.wasm);
      Do(Elsewhere);
      if !written {
        return false;
      }
      if !renamed {
        return false;
      }
      Do(RenameWasm(name, p.value.wasm));
      return true;
    }

    method WriteManifest(m: Manifest, written: bool, renamed: bool) returns (ok: bool)
      requires Valid() && Sound(Folder(Some(m), wasms))
      modifies this
      ensures Valid()
      ensures old(trail) <= trail && wasms == old(wasms) && (ok <==> written && renamed)
      ensures manifest == if ok then Some(m) else old(manifest)
      ensures Good(old(View())) && AllGood(old(trail)) && OwnNames(Folder(Some(m), wasms)) ==> AllGood(trail)
    {
      Do(Elsewhere);
      if !written {
        return false;
      }
      if !renamed {
        return false;
      }
      Do(RenameManifest(m));
      return true;
    }

    /** Publishes again when the manifest, if it can be read at all, does not name the policy that runs. The folder it
        leaves is then sound exactly when the manifest did not name the policy, or the folder was sound: a wasm missing
        under a right manifest is not put back. */
    method RepublishIfStale(installed: Option<Policy>, readable: bool, io: nat -> bool, removals: Hash -> bool)
      returns (ok: bool)
      requires Valid()
      modifies this
      ensures Valid()
      ensures ok ==> manifest.Some? && manifest.value.hash == HashOf(installed)
      ensures ok ==> (Sound(View()) <==> Sound(old(View())) || NeedsPublishing(old(View()), installed, readable))
      ensures readable && old(manifest).Some? && old(manifest).value.hash == HashOf(installed) ==>
        ok && View() == old(View())
      ensures ok && !(readable && old(manifest).Some? && old(manifest).value.hash == HashOf(installed)) ==>
        manifest.Some? && Names(manifest.value, installed) && Good(View())
      ensures Good(old(View())) && AllGood(old(trail)) ==> AllGood(trail)
    {
      if !NeedsPublishing(Folder(manifest, wasms), installed, readable) {
        return true;
      }
      ok := Publish(installed, io, removals);
    }
  }
}
