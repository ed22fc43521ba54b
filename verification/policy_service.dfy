/** The replica's own code: fields changed step by step, and the notices filtered in their own array. */
module PolicyService {
  import opened Basics
  import opened PolicyPublish
  import opened PolicyReplica

  lemma KeptSnoc(ns: seq<Notice>, i: nat, hash: Hash, now: Clock)
    requires i < |ns|
    ensures Kept(ns[..i + 1], hash, now) ==
            Kept(ns[..i], hash, now) + if Waits(ns[i], hash, now(i)) then [ns[i]] else []
  {
    assert ns[..i + 1][..i] == ns[..i];
  }

  lemma AnsweredSnoc(ns: seq<Notice>, i: nat, current: Option<Policy>, region: Region)
    requires i < |ns|
    ensures Answered(ns[..i + 1], current, region) ==
      Answered(ns[..i], current, region) +
      if ns[i].hash == HashOf(current) then [Answer(ns[i], current, region)] else []
  {
    assert ns[..i + 1][..i] == ns[..i];
  }

  class Replica {
    var manifest: Reading
    var wasms: map<Hash, Bytes>
    var current: Option<Policy>
    var region: Region
    var notices: array<Notice>
    var count: nat
    var received: nat
    ghost var answers: seq<Answer>
    ghost var reloads: nat

    ghost predicate Valid()
      reads this
    {
      count <= notices.Length
    }

    ghost function View(): State
      requires Valid()
      reads this, notices
    {
      State(manifest, wasms, current, region, notices[..count], answers, received, reloads)
    }

    /** A start with nothing installed, no notice and an empty region. */
    constructor ()
      ensures Valid() && fresh(notices)
      ensures View() == State(Absent, map[], None, WritePolicy(0, None, ""), [], [], 0, 0)
    {
      manifest, wasms, current, region := Absent, map[], None, WritePolicy(0, None, "");
      notices := new Notice[0];
      count, received, answers, reloads := 0, 0, [], 0;
    }

    method WriteRegion(version: nat, wasm: Option<Bytes>, entrypoint: string)
      modifies this`region
      ensures region == WritePolicy(version, wasm, entrypoint)
    {
      if wasm.Some? && |wasm.value| > MAX_WASM {
        region := Region(version, NoPolicy, RegionError, entrypoint);
      } else if wasm.Some? {
        region := Region(version, Sha(wasm.value), RegionOk, entrypoint);
      } else {
        region := Region(version, NoPolicy, RegionOk, entrypoint);
      }
    }

    /** The region is written, and the routers are told. */
    method WriteAndReload(version: nat, wasm: Option<Bytes>, entrypoint: string)
      modifies this`region, this`reloads
      ensures region == WritePolicy(version, wasm, entrypoint) && reloads == old(reloads) + 1
    {
      WriteRegion(version, wasm, entrypoint);
      reloads := reloads + 1;
    }

    /** A start of the process on what is installed, with the region it finds or, after a reboot, a blank one. */
    method LoadCurrent(lost: bool, metaKept: bool, ok: Check) returns (loaded: bool)
      requires Valid()
      modifies this`region, this`count, this`current
      ensures Valid() && View() == Restarted(old(View()), lost, metaKept, ok)
      ensures loaded <==> old(current).Some? ==> ok(old(current).value.wasm)
    {
      count := 0;
      if lost {
        region := WritePolicy(0, None, "");
      }
      if current.None? {
        region := region.(status := RegionOk);
        return true;
      }
      if !ok(current.value.wasm) {
        region := region.(status := RegionError);
        return false;
      }
      var version := if current.value.version == 0 then 1 else current.value.version;
      WriteRegion(version, Some(current.value.wasm), Entry(current.value.entrypoint));
      if !metaKept {
        current := OnDisk(current.value.wasm, 0, "");
      }
      return true;
    }

    method ClearInstalled(c: Clearing)
      requires Valid()
      modifies this`current, this`region, this`reloads
      ensures View() == ClearPolicy(old(View()), c)
    {
      match c {
        case ClearRefused => return;
        case LostMeta =>
          if current.Some? { current := OnDisk(current.value.wasm, 0, ""); }
          return;
        case LostWasm =>
          current := None;
          return;
        case ClearedAll =>
          current := None;
      }
      WriteAndReload(0, None, "");
    }

    method InstallStaged(wasm: Bytes, m: Manifest, install: Install, ok: Check) returns (done: bool)
      requires Valid()
      modifies this`current, this`region, this`reloads
      ensures View() == Apply(old(View()), wasm, m, install, ok) && reloads == old(reloads) + if done then 1 else 0
    {
      if !ok(wasm) {
        region := region.(status := RegionError);
        return false;
      }
      var version, entrypoint := OldVersion(current), OldEntry(current);
      match install {
        case Refused => return false;
        case WasmOnly =>
          current := OnDisk(wasm, version, entrypoint);
          return false;
        case MetaLost =>
          current := OnDisk(wasm, 0, "");
          return false;
        case Unreported =>
          current := OnDisk(wasm, m.version, Entry(m.entrypoint));
          return false;
        case Torn(k) =>
          current := OnDisk(if k < |wasm| then wasm[..k] else wasm, version, entrypoint);
          return false;
        case Wrote =>
          current := OnDisk(wasm, m.version, Entry(m.entrypoint));
      }
      WriteAndReload(m.version, Some(wasm), Entry(m.entrypoint));
      return true;
    }

    method SyncFromPublished(io: Io, ok: Check) returns (installed: bool)
      requires Valid()
      modifies this`current, this`region, this`reloads
      ensures View() == Sync(old(View()), io, ok)
      ensures reloads == old(reloads) + if installed then 1 else 0
    {
      if !manifest.Read? {
        return false;
      }
      var m := manifest.m;
      if m.hash == NoPolicy {
        if current.None? {
          return false;
        }
        ClearInstalled(io.clearing);
        return io.clearing.ClearedAll?;
      }
      if m.hash == HashOf(current) {
        return false;
      }
      if m.file !in wasms {
        return false;
      }
      var wasm := wasms[m.file];
      if Sha(wasm) != m.hash {
        return false;
      }
      if !io.staged {
        return false;
      }
      installed := InstallStaged(wasm, m, io.install, ok);
    }

    method EnsureRegionMatchesCurrent(ok: Check)
      requires Valid()
      modifies this`region, this`reloads
      ensures View() == Repair(old(View()), ok)
    {
      if current.Some? && !ok(current.value.wasm) {
        return;
      }
      var want := if current.Some? then Sha(current.value.wasm) else NoPolicy;
      if region.hash == want {
        return;
      }
      if current.None? {
        WriteAndReload(0, None, "");
      } else {
        WriteAndReload(current.value.version, Some(current.value.wasm), Entry(current.value.entrypoint));
      }
    }

    method HandleSyncNotice(version: nat, hash: Hash, now: int)
      requires Valid()
      modifies this
      ensures Valid() && View() == Step(old(View()), NoticeArrives(version, hash, now), _ => true)
      ensures notices == old(notices) || fresh(notices)
    {
      var grown := new Notice[count + 1](i requires 0 <= i < count + 1 reads this, notices =>
        if i < count && i < notices.Length then notices[i] else Notice(received, version, hash, now));
      assert grown[..count + 1] == notices[..count] + [Notice(received, version, hash, now)];
      notices, count, received := grown, count + 1, received + 1;
    }

    /** One notice: answered, moved to the end of those kept, or dropped. */
    method Sift(i: nat, kept: nat, hash: Hash, now: Clock, ghost all: seq<Notice>) returns (kept': nat)
      requires kept <= i < count == |all| <= notices.Length && hash == HashOf(current)
      requires notices[..kept] == Kept(all[..i], hash, now) && notices[i..count] == all[i..]
      modifies this`answers, notices
      ensures kept' <= i + 1 && notices[..kept'] == Kept(all[..i + 1], hash, now) &&
        notices[i + 1..count] == all[i + 1..]
      ensures answers == old(answers) + if all[i].hash == hash then [Answer(all[i], current, region)] else []
    {
      var n := notices[i];
      assert n == notices[i..count][0] == all[i];
      KeptSnoc(all, i, hash, now);
      ghost var front, back := notices[..kept], notices[i + 1..count];
      assert back == notices[i..count][1..] == all[i + 1..];
      kept' := kept;
      if n.hash != hash {
        if now(i) - n.received < NOTICE_TTL {
          notices[kept] := n;
          kept' := kept + 1;
          assert notices[..kept'] == front + [n] && notices[i + 1..count] == back;
        }
      } else {
        answers := answers + [Answer(n, current, region)];
      }
    }

    /** All of them, in order, the kept ones moved to the front of the same array. */
    method SiftAll(now: Clock) returns (kept: nat)
      requires Valid()
      modifies this`answers, notices
      ensures kept <= count && notices[..kept] == Kept(old(notices[..count]), HashOf(current), now)
      ensures answers == old(answers) + Answered(old(notices[..count]), current, region)
    {
      var hash := HashOf(current);
      ghost var all, before := notices[..count], answers;
      assert notices[0..count] == all[0..] && notices[..0] == Kept(all[..0], hash, now);
      kept := 0;
      for i := 0 to count
        invariant kept <= i && notices[..kept] == Kept(all[..i], hash, now) && notices[i..count] == all[i..]
        invariant answers == before + Answered(all[..i], current, region)
      {
        AnsweredSnoc(all, i, current, region);
        kept := Sift(i, kept, hash, now, all);
      }
      assert all[..count] == all;
    }

    /** Satisfied notices are answered; the others are kept while young. */
    method AnswerPendingSyncs(now: Clock)
      requires Valid()
      modifies this`count, this`answers, notices
      ensures Valid() && View() == AnswerPending(old(View()), now)
    {
      if count == 0 {
        return;
      }
      count := SiftAll(now);
    }

    method SyncNow(io: Io, now: Clock, ok: Check)
      requires Valid()
      modifies this, notices
      ensures Valid() && View() == SyncOnce(old(View()), io, now, ok)
    {
      var _ := SyncFromPublished(io, ok);
      EnsureRegionMatchesCurrent(ok);
      AnswerPendingSyncs(now);
    }
  }
}
