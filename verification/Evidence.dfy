/** Writing the evidence file: what the target may hold after a crash at any point. */
module Evidence {
  import opened Options

  // A file: what was written to it, and how much of that is known to be on the medium.
  datatype Inode = Inode(written: string, synced: nat)

  type Directory = map<string, nat>

  // The last directory state is the current one; after a power loss any of those listed may be found.
  datatype Disk = Disk(inodes: seq<Inode>, dirs: seq<Directory>)

  ghost predicate Valid(d: Disk) {
    && d.dirs != []
    && (forall k, name | 0 <= k < |d.dirs| && name in d.dirs[k] :: d.dirs[k][name] < |d.inodes|)
    && (forall i | 0 <= i < |d.inodes| :: d.inodes[i].synced <= |d.inodes[i].written|)
  }

  function Now(d: Disk): Directory
    requires d.dirs != []
  {
    d.dirs[|d.dirs| - 1]
  }

  // What the file holds when only the process dies.
  ghost function Content(d: Disk, name: string): Option<string>
    requires Valid(d)
  {
    if name in Now(d) then Some(d.inodes[Now(d)[name]].written) else None
  }

  // What the file may hold after a power loss: no less than what was synced, and possibly only a prefix.
  ghost predicate MayHold(d: Disk, name: string, content: Option<string>)
    requires Valid(d)
  {
    exists k | 0 <= k < |d.dirs| :: HoldsIn(d, d.dirs[k], name, content)
  }

  ghost predicate HoldsIn(d: Disk, dir: Directory, name: string, content: Option<string>)
    requires name in dir ==> dir[name] < |d.inodes|
  {
    if name in dir then
      content.Some? && content.value <= d.inodes[dir[name]].written && |content.value| >= d.inodes[dir[name]].synced
    else content.None?
  }

  // ------------------------------------------------------------------ primitive steps

  function Created(d: Disk, name: string): Disk
    requires d.dirs != []
  {
    Disk(d.inodes + [Inode("", 0)], d.dirs + [Now(d)[name := |d.inodes|]])
  }

  function Appended(d: Disk, file: nat, text: string): Disk
    requires file < |d.inodes|
  {
    d.(inodes := d.inodes[file := d.inodes[file].(written := d.inodes[file].written + text)])
  }

  function Synced(d: Disk, file: nat): Disk
    requires file < |d.inodes|
  {
    d.(inodes := d.inodes[file := d.inodes[file].(synced := |d.inodes[file].written|)])
  }

  function Renamed(d: Disk, source: string, target: string): Disk
    requires d.dirs != [] && source in Now(d)
  {
    d.(dirs := d.dirs + [(Now(d) - {source})[target := Now(d)[source]]])
  }

  function DirectorySynced(d: Disk): Disk
    requires d.dirs != []
  {
    d.(dirs := [Now(d)])
  }

  function Unlinked(d: Disk, name: string): Disk
    requires d.dirs != []
  {
    d.(dirs := d.dirs + [Now(d) - {name}])
  }

  // ------------------------------------------------------------------ safety

  // After a crash the target holds what it held before, or the whole new text if that was found valid.
  ghost predicate CrashSafe(d: Disk, before: Disk, target: string, text: string, accepted: bool)
    requires Valid(d) && Valid(before)
  {
    forall content | MayHold(d, target, content) ::
        MayHold(before, target, content) || (accepted && content == Some(text))
  }

  // The same when only the process dies and the kernel goes on.
  ghost predicate KillSafe(d: Disk, before: Disk, target: string, text: string)
    requires Valid(d) && Valid(before)
  {
    Content(d, target) == Content(before, target) || Content(d, target) == Some(text)
  }

  // A new file is being filled under a name of its own; nothing else has changed.
  ghost predicate Filling(d: Disk, before: Disk, target: string, temp: string, file: nat)
    requires Valid(before)
  {
    && Valid(d) && file >= |before.inodes| && file < |d.inodes|
    && (forall i | 0 <= i < |before.inodes| :: d.inodes[i] == before.inodes[i])
    && (forall k | 0 <= k < |d.dirs| :: Known(d.dirs[k], before, target))
    && SameEntry(Now(d), Now(before), target)
    && temp in Now(d) && Now(d)[temp] == file
    && (forall name | name != temp :: SameEntry(Now(d), Now(before), name))
  }

  // The directory state says about the target what some state before the writing said.
  ghost predicate Known(dir: Directory, before: Disk, target: string) {
    exists j | 0 <= j < |before.dirs| :: SameEntry(dir, before.dirs[j], target)
  }

  ghost predicate SameEntry(a: Directory, b: Directory, name: string) {
    (name in a <==> name in b) && (name in a ==> a[name] == b[name])
  }

  // A known entry leads to a file that was there before and has not changed.
  lemma KnownHoldsAsBefore(d: Disk, dir: Directory, before: Disk, target: string, content: Option<string>)
    requires Valid(before) && |before.inodes| <= |d.inodes| && d.inodes[..|before.inodes|] == before.inodes
    requires Known(dir, before, target) && (target in dir ==> dir[target] < |d.inodes|)
             && HoldsIn(d, dir, target, content)
    ensures MayHold(before, target, content)
  {
    var j :| 0 <= j < |before.dirs| && SameEntry(dir, before.dirs[j], target);
    assert target in dir ==> d.inodes[dir[target]] == d.inodes[..|before.inodes|][dir[target]];
    assert HoldsIn(before, before.dirs[j], target, content);
  }

  lemma FillingIsSafe(d: Disk, before: Disk, target: string, temp: string, file: nat, text: string, accepted: bool)
    requires Valid(before) && Filling(d, before, target, temp, file)
    ensures Valid(d) && d.dirs != [] && temp in Now(d) && file < |d.inodes|
    ensures CrashSafe(d, before, target, text, accepted) && KillSafe(d, before, target, text)
  {
    hide Known, HoldsIn;
    assert d.inodes[..|before.inodes|] == before.inodes;
    forall content | MayHold(d, target, content)
      ensures MayHold(before, target, content)
    {
      var k :| 0 <= k < |d.dirs| && HoldsIn(d, d.dirs[k], target, content);
      assert Known(d.dirs[k], before, target);
      KnownHoldsAsBefore(d, d.dirs[k], before, target, content);
    }
  }

  lemma CreatedIsFilling(before: Disk, target: string, temp: string)
    requires Valid(before) && temp !in Now(before) && temp != target
    ensures Filling(Created(before, temp), before, target, temp, |before.inodes|)
    ensures Created(before, temp).inodes[|before.inodes|] == Inode("", 0)
  {
    var d := Created(before, temp);
    forall k | 0 <= k < |d.dirs|
      ensures Known(d.dirs[k], before, target)
    {
      var j := if k < |before.dirs| then k else k - 1;
      assert SameEntry(d.dirs[k], before.dirs[j], target);
    }
    forall k, name | 0 <= k < |d.dirs| && name in d.dirs[k]
      ensures d.dirs[k][name] < |d.inodes|
    {
      if name != temp || k < |before.dirs| {
        var j := if k < |before.dirs| then k else k - 1;
        assert name in before.dirs[j] && before.dirs[j][name] == d.dirs[k][name];
      }
    }
  }

  // Appending to the new file and syncing it keep everything else in place.
  lemma FillingGoesOn(d: Disk, before: Disk, target: string, temp: string, file: nat, inode: Inode)
    requires Valid(before) && Filling(d, before, target, temp, file) && inode.synced <= |inode.written|
    ensures Filling(d.(inodes := d.inodes[file := inode]), before, target, temp, file)
  {
    hide Known;
    var d' := d.(inodes := d.inodes[file := inode]);
    assert d'.dirs == d.dirs && Now(d') == Now(d);
    forall k | 0 <= k < |d'.dirs|
      ensures Known(d'.dirs[k], before, target)
    {
      assert Known(d.dirs[k], before, target);
    }
    forall i | 0 <= i < |before.inodes|
      ensures d'.inodes[i] == before.inodes[i]
    {
      assert d.inodes[i] == before.inodes[i];
    }
  }

  // Replacing the target by a complete, synced file.
  lemma ReplaceIsSafe(d: Disk, before: Disk, target: string, temp: string, file: nat, text: string)
    requires Valid(before) && Filling(d, before, target, temp, file) && target != temp
    requires d.inodes[file] == Inode(text, |text|)
    ensures Valid(Renamed(d, temp, target)) && CrashSafe(Renamed(d, temp, target), before, target, text, true)
    ensures temp !in Now(Renamed(d, temp, target))
    ensures Valid(DirectorySynced(Renamed(d, temp, target)))
    ensures CrashSafe(DirectorySynced(Renamed(d, temp, target)), before, target, text, true)
    ensures forall content ::
            MayHold(DirectorySynced(Renamed(d, temp, target)), target, content) <==> content == Some(text)
  {
    hide Filling, CrashSafe;
    FillingIsSafe(d, before, target, temp, file, text, true);
    var after := Renamed(d, temp, target);
    ReplaceIsSafeExactly(d, before, target, temp, file, text);
    assert CrashSafe(after, before, target, text, true);
    RenamedIsInPlace(d, before, target, temp, file, text);
    var final := DirectorySynced(after);
    assert final.dirs == [Now(after)] && final.dirs[0] == Now(after) == Now(final);
    OnlyFullText(final, before, target, file, text);
  }

  // One directory state that leads to a complete, synced file.
  lemma OnlyFullText(d: Disk, before: Disk, target: string, file: nat, text: string)
    requires Valid(d) && Valid(before) && |d.dirs| == 1 && target in d.dirs[0] && d.dirs[0][target] == file
    requires d.inodes[file] == Inode(text, |text|)
    ensures forall content :: MayHold(d, target, content) <==> content == Some(text)
    ensures CrashSafe(d, before, target, text, true)
  {
    forall content
      ensures MayHold(d, target, content) <==> content == Some(text)
    {
      if MayHold(d, target, content) {
        FullPrefix(content.value, text);
      }
      assert HoldsIn(d, d.dirs[0], target, Some(text));
    }
  }

  lemma RenamedIsInPlace(d: Disk, before: Disk, target: string, temp: string, file: nat, text: string)
    requires Valid(before) && Filling(d, before, target, temp, file) && target != temp && d.inodes[file].written == text
    ensures var after := Renamed(d, temp, target);
            && temp !in Now(after) && target in Now(after) && Now(after)[target] == file
            && Valid(after) && Valid(DirectorySynced(after))
  {
    RenamedHolds(d, before, target, temp, file, text, None);
    var after := Renamed(d, temp, target);
    assert DirectorySynced(after).dirs == [after.dirs[|after.dirs| - 1]];
  }

  lemma FullPrefix(a: string, b: string)
    requires a <= b && |a| >= |b|
    ensures a == b
  {}

  // Replacing the target by a complete file: a power loss may then leave whatever may remain of a file
  // whose first part only is known to be on the medium.
  lemma RenamedHolds(d: Disk, before: Disk, target: string, temp: string, file: nat, text: string,
                     content: Option<string>)
    requires Valid(before) && Filling(d, before, target, temp, file) && target != temp && d.inodes[file].written == text
    ensures Valid(Renamed(d, temp, target))
    ensures MayHold(Renamed(d, temp, target), target, content) <==>
            MayHold(d, target, content)
                || (content.Some? && content.value <= text && d.inodes[file].synced <= |content.value|)
  {
    hide Known;
    var after := Renamed(d, temp, target);
    forall k, name | 0 <= k < |after.dirs| && name in after.dirs[k]
      ensures after.dirs[k][name] < |after.inodes|
    {
      var j := if k < |d.dirs| then k else k - 1;
      var source := if k < |d.dirs| || name != target then name else temp;
      assert source in d.dirs[j] && d.dirs[j][source] == after.dirs[k][name];
    }
    assert Now(after)[target] == file;
    if MayHold(after, target, content) {
      var k :| 0 <= k < |after.dirs| && HoldsIn(after, after.dirs[k], target, content);
      if k < |d.dirs| {
        assert HoldsIn(d, d.dirs[k], target, content);
      }
    }
    if MayHold(d, target, content) {
      var k :| 0 <= k < |d.dirs| && HoldsIn(d, d.dirs[k], target, content);
      assert HoldsIn(after, after.dirs[k], target, content);
    }
    if content.Some? && content.value <= text && d.inodes[file].synced <= |content.value| {
      assert HoldsIn(after, after.dirs[|d.dirs|], target, content);
    }
  }

  // Replacing by a complete file is crash safe exactly when each shorter text from the synced length on is
  // one that the target could hold before anyway.
  lemma ReplaceIsSafeExactly(d: Disk, before: Disk, target: string, temp: string, file: nat, text: string)
    requires Valid(before) && Filling(d, before, target, temp, file) && target != temp && d.inodes[file].written == text
    ensures Valid(Renamed(d, temp, target))
    ensures CrashSafe(Renamed(d, temp, target), before, target, text, true) <==>
            forall n | d.inodes[file].synced <= n < |text| :: MayHold(before, target, Some(text[..n]))
  {
    hide MayHold, Filling;
    FillingIsSafe(d, before, target, temp, file, text, true);
    var after, synced := Renamed(d, temp, target), d.inodes[file].synced;
    RenamedHolds(d, before, target, temp, file, text, Some(text));
    if CrashSafe(after, before, target, text, true) {
      forall n | synced <= n < |text|
        ensures MayHold(before, target, Some(text[..n]))
      {
        RenamedHolds(d, before, target, temp, file, text, Some(text[..n]));
        assert MayHold(after, target, Some(text[..n]));
      }
    }
    if forall n | synced <= n < |text| :: MayHold(before, target, Some(text[..n])) {
      forall content | MayHold(after, target, content)
        ensures MayHold(before, target, content) || content == Some(text)
      {
        RenamedHolds(d, before, target, temp, file, text, content);
        if content.Some? && content.value <= text && synced <= |content.value| {
          assert content.value == text[..|content.value|];
          assert |content.value| == |text| ==> content.value == text;
        }
      }
    }
  }

  // In particular a target that held nothing is safe exactly when the file is synced in full.
  lemma FirstEvidenceNeedsSync(d: Disk, before: Disk, target: string, temp: string, file: nat, text: string)
    requires Valid(before) && Filling(d, before, target, temp, file) && target != temp && d.inodes[file].written == text
    requires forall k | 0 <= k < |before.dirs| :: target !in before.dirs[k]
    ensures Valid(Renamed(d, temp, target))
    ensures CrashSafe(Renamed(d, temp, target), before, target, text, true) <==> d.inodes[file].synced == |text|
  {
    hide CrashSafe;
    ReplaceIsSafeExactly(d, before, target, temp, file, text);
    assert d.inodes[file].synced < |text| ==> !MayHold(before, target, Some(text[..d.inodes[file].synced]));
  }

  // Without a sync before the rename, a power loss may leave any prefix of the text, even none of it.
  lemma UnsyncedReplaceMayTear(before: Disk, target: string, temp: string, text: string, prefix: string)
    requires Valid(before) && temp !in Now(before) && temp != target && prefix <= text
    ensures var file := |before.inodes|;
            var d := Renamed(Appended(Created(before, temp), file, text), temp, target);
            Valid(d) && MayHold(d, target, Some(prefix)) && Content(d, target) == Some(text)
  {
    var file := |before.inodes|;
    var filled := Appended(Created(before, temp), file, text);
    CreatedIsFilling(before, target, temp);
    assert "" + text == text;
    FillingGoesOn(Created(before, temp), before, target, temp, file, Inode(text, 0));
    RenamedHolds(filled, before, target, temp, file, text, Some(prefix));
    assert Now(Renamed(filled, temp, target))[target] == file;
  }

  // Giving up: the temporary name disappears and the target is as before.
  lemma UnlinkIsSafe(d: Disk, before: Disk, target: string, temp: string, file: nat, text: string, accepted: bool)
    requires Valid(before) && Filling(d, before, target, temp, file) && target != temp
    ensures Valid(Unlinked(d, temp)) && temp !in Now(Unlinked(d, temp))
    ensures CrashSafe(Unlinked(d, temp), before, target, text, accepted)
            && KillSafe(Unlinked(d, temp), before, target, text)
  {
    hide Known, CrashSafe, KillSafe, MayHold;
    var after := Unlinked(d, temp);
    FillingIsSafe(d, before, target, temp, file, text, accepted);
    forall k, name | 0 <= k < |after.dirs| && name in after.dirs[k]
      ensures after.dirs[k][name] < |after.inodes|
    {
      var j := if k < |d.dirs| then k else k - 1;
      assert name in d.dirs[j] && d.dirs[j][name] == after.dirs[k][name];
    }
    SameTarget(d, after, before, target, text, accepted);
  }

  // Directory states that agree on the target keep both kinds of safety.
  lemma SameTarget(d: Disk, after: Disk, before: Disk, target: string, text: string, accepted: bool)
    requires Valid(before) && Valid(d) && Valid(after) && after.inodes == d.inodes && |after.dirs| == |d.dirs| + 1
    requires forall k | 0 <= k < |d.dirs| :: after.dirs[k] == d.dirs[k]
    requires SameEntry(Now(after), Now(d), target)
    requires CrashSafe(d, before, target, text, accepted) && KillSafe(d, before, target, text)
    ensures CrashSafe(after, before, target, text, accepted) && KillSafe(after, before, target, text)
  {
    forall content | MayHold(after, target, content)
      ensures MayHold(d, target, content)
    {
      var k :| 0 <= k < |after.dirs| && HoldsIn(after, after.dirs[k], target, content);
      var j := if k < |d.dirs| then k else k - 1;
      assert HoldsIn(d, d.dirs[j], target, content);
    }
  }

  // Nothing but a growing prefix of the text in one file.
  ghost predicate AllPrefixes(history: seq<Disk>, start: nat, d: Disk, file: nat, text: string)
    requires file < |d.inodes|
  {
    forall k | start <= k < |history| :: exists n | 0 <= n <= |text| :: history[k] == Appended(d, file, text[..n])
  }

  // ------------------------------------------------------------------ the volume and the two writers

  // RaisedInCleanup: even the removal of the temporary file failed.
  datatype Exit = Returned | Raised | RaisedInCleanup

  class Volume {
    const fails: nat -> bool
    var step: nat
    var disk: Disk
    ghost var history: seq<Disk>

    constructor (disk: Disk, fails: nat -> bool)
      ensures this.disk == disk && history == [] && this.fails == fails
    {
      this.fails := fails;
      this.disk, step, history := disk, 0, [];
    }

    // One primitive step, which may fail and then changes nothing.
    method Attempt(next: Disk) returns (ok: bool)
      modifies this
      ensures disk == (if ok then next else old(disk)) && history == old(history) + [disk]
      ensures ok == !fails(old(step)) && step == old(step) + 1
    {
      ok := !fails(step);
      step := step + 1;
      disk := if ok then next else disk;
      history := history + [disk];
    }

    // Writing goes to the file piece by piece and may stop anywhere.
    method WriteText(file: nat, text: string) returns (ok: bool)
      requires file < |disk.inodes|
      modifies this
      ensures exists n | 0 <= n <= |text| ::
                && disk == Appended(old(disk), file, text[..n]) && (ok ==> n == |text|)
      ensures ok <==> NoneFails(fails, old(step), old(step) + |text|)
      ensures ok ==> step == old(step) + |text|
      ensures old(history) <= history && disk == (if history == old(history) then old(disk) else history[|history| - 1])
      ensures AllPrefixes(history, |old(history)|, old(disk), file, text)
    {
      var n: nat := 0;
      ok := true;
      assert disk.inodes[file].written + text[..0] == disk.inodes[file].written;
      assert disk == Appended(disk, file, text[..0]);
      while ok && n < |text|
        invariant n <= |text| && disk == Appended(old(disk), file, text[..n])
        invariant NoneFails(fails, old(step), old(step) + n)
        invariant if ok then step == old(step) + n else n < |text| && fails(old(step) + n)
        invariant old(history) <= history
                  && disk == (if history == old(history) then old(disk) else history[|history| - 1])
        invariant AllPrefixes(history, |old(history)|, old(disk), file, text)
        decreases |text| - n, ok
      {
        assert old(disk).inodes[file].written + text[..n] + [text[n]]
            == old(disk).inodes[file].written + text[..n + 1] by {
          assert text[..n + 1] == text[..n] + [text[n]];
        }
        ok := Attempt(Appended(disk, file, [text[n]]));
        if ok {
          n := n + 1;
        }
      }
    }
  }

  ghost predicate NoneFails(fails: nat -> bool, from: nat, until: nat) {
    forall n | from <= n < until :: !fails(n)
  }

  lemma FailsWithin(fails: nat -> bool, from: nat, at: nat, until: nat)
    requires from <= at < until && fails(at)
    ensures !NoneFails(fails, from, until)
  {}

  lemma FailsEarlier(fails: nat -> bool, from: nat, a: nat, b: nat, until: nat)
    requires from <= a <= b <= until && !NoneFails(fails, a, b)
    ensures !NoneFails(fails, from, until)
  {
    var n :| a <= n < b && fails(n);
  }

  lemma OneEarlier(fails: nat -> bool, from: nat, until: nat)
    requires from < until && !fails(from)
    ensures NoneFails(fails, from, until) <==> NoneFails(fails, from + 1, until)
  {}

  lemma NoneFailsAround(fails: nat -> bool, from: nat, a: nat, b: nat, until: nat)
    requires from <= a <= b <= until && NoneFails(fails, a, b)
    requires forall n | from <= n < a || b <= n < until :: !fails(n)
    ensures NoneFails(fails, from, until)
  {}

  // Every state recorded since the start is safe.
  ghost predicate AllCrashSafe(history: seq<Disk>, start: nat, before: Disk, target: string, text: string,
                               accepted: bool)
    requires Valid(before)
  {
    forall k | start <= k < |history| :: Valid(history[k]) && CrashSafe(history[k], before, target, text, accepted)
  }

  lemma WritingIsSafe(history: seq<Disk>, start: nat, d: Disk, before: Disk, target: string, temp: string, file: nat,
                      text: string, accepted: bool)
    requires Valid(before) && Filling(d, before, target, temp, file) && d.inodes[file] == Inode("", 0)
    requires AllPrefixes(history, start, d, file, text)
    ensures AllCrashSafe(history, start, before, target, text, accepted)
    ensures forall n | 0 <= n <= |text| :: Filling(Appended(d, file, text[..n]), before, target, temp, file)
    ensures Appended(d, file, text).inodes[file] == Inode(text, 0)
  {
    hide Filling, CrashSafe, KillSafe;
    FillingIsSafe(d, before, target, temp, file, text, accepted);
    assert "" + text == text;
    forall n | 0 <= n <= |text|
      ensures Filling(Appended(d, file, text[..n]), before, target, temp, file)
      ensures Valid(Appended(d, file, text[..n]))
              && CrashSafe(Appended(d, file, text[..n]), before, target, text, accepted)
    {
      FillingGoesOn(d, before, target, temp, file, Inode("" + text[..n], 0));
      FillingIsSafe(Appended(d, file, text[..n]), before, target, temp, file, text, accepted);
    }
    forall k | start <= k < |history|
      ensures Valid(history[k]) && CrashSafe(history[k], before, target, text, accepted)
    {
      var n :| 0 <= n <= |text| && history[k] == Appended(d, file, text[..n]);
    }
  }

  // The guarded steps; a failure leaves the target alone or comes after the replacement.
  method FillAndReplace(v: Volume, target: string, temp: string, file: nat, text: string, accepts: string -> bool,
                        ghost before: Disk)
    returns (ok: bool)
    requires Valid(before) && Filling(v.disk, before, target, temp, file) && temp != target
             && v.disk.inodes[file] == Inode("", 0)
    modifies v
    ensures old(v.history) < v.history && v.disk == v.history[|v.history| - 1]
    ensures AllCrashSafe(v.history, |old(v.history)|, before, target, text, accepts(text))
    ensures Filling(v.disk, before, target, temp, file) || (Valid(v.disk) && temp !in Now(v.disk))
    ensures ok <==> accepts(text) && NoneFails(v.fails, old(v.step), old(v.step) + |text| + 5)
    ensures ok ==> accepts(text) && Valid(v.disk) && temp !in Now(v.disk)
                   && forall content :: MayHold(v.disk, target, content) <==> content == Some(text)
  {
    hide CrashSafe, Filling, KillSafe, MayHold, Valid, NoneFails;
    ghost var from, until := v.step, v.step + |text| + 5;
    ok := FillSynced(v, target, temp, file, text, accepts(text), before);
    FillingIsSafe(v.disk, before, target, temp, file, text, accepts(text));
    if !ok {
      FailsEarlier(v.fails, from, from, from + |text| + 2, until);
      return;
    }
    ok := v.Attempt(v.disk);
    if !ok {
      FailsWithin(v.fails, from, from + |text| + 2, until);
      return;
    }
    if !accepts(v.disk.inodes[file].written) {
      return false;
    }
    ok := ReplaceDurably(v, target, temp, file, text, before);
    if ok {
      NoneFailsAround(v.fails, from, from, from + |text| + 2, until);
    } else {
      FailsEarlier(v.fails, from, from + |text| + 3, until, until);
    }
  }

  // The steps up to the sync of the file.
  method FillSynced(v: Volume, target: string, temp: string, file: nat, text: string, ghost accepted: bool,
                    ghost before: Disk)
    returns (ok: bool)
    requires Valid(before) && Filling(v.disk, before, target, temp, file) && temp != target
             && v.disk.inodes[file] == Inode("", 0)
    modifies v
    ensures old(v.history) < v.history && v.disk == v.history[|v.history| - 1]
    ensures AllCrashSafe(v.history, |old(v.history)|, before, target, text, accepted)
    ensures Filling(v.disk, before, target, temp, file)
    ensures ok <==> NoneFails(v.fails, old(v.step), old(v.step) + |text| + 2)
    ensures ok ==> v.step == old(v.step) + |text| + 2
                   && file < |v.disk.inodes| && v.disk.inodes[file] == Inode(text, |text|)
  {
    hide CrashSafe, Filling, KillSafe, MayHold, Valid, NoneFails;
    ghost var empty, from, until := v.disk, v.step, v.step + |text| + 2;
    FillingIsSafe(empty, before, target, temp, file, text, accepted);
    ok := v.Attempt(v.disk);
    if !ok {
      FailsWithin(v.fails, from, from, until);
      return;
    }
    ghost var prepared := v.history;
    ok := v.WriteText(file, text);
    WritingIsSafe(v.history, |prepared|, empty, before, target, temp, file, text, accepted);
    assert text[..|text|] == text;
    if !ok {
      FailsEarlier(v.fails, from, from + 1, from + 1 + |text|, until);
      return;
    }
    FillingGoesOn(v.disk, before, target, temp, file, Inode(text, |text|));
    FillingIsSafe(Synced(v.disk, file), before, target, temp, file, text, accepted);
    ok := v.Attempt(Synced(v.disk, file));
    if ok {
      NoneFailsAround(v.fails, from, from + 1, from + 1 + |text|, until);
    } else {
      FailsWithin(v.fails, from, from + 1 + |text|, until);
    }
  }

  // The replacement and the sync of the directory.
  method ReplaceDurably(v: Volume, target: string, temp: string, file: nat, text: string, ghost before: Disk)
    returns (ok: bool)
    requires Valid(before) && Filling(v.disk, before, target, temp, file) && temp != target
             && Valid(v.disk) && v.disk.inodes[file] == Inode(text, |text|)
    modifies v
    ensures old(v.history) < v.history && v.disk == v.history[|v.history| - 1]
    ensures AllCrashSafe(v.history, |old(v.history)|, before, target, text, true)
    ensures Filling(v.disk, before, target, temp, file) || (Valid(v.disk) && temp !in Now(v.disk))
    ensures ok <==> !v.fails(old(v.step)) && !v.fails(old(v.step) + 1)
    ensures !ok ==> !NoneFails(v.fails, old(v.step), old(v.step) + 2)
    ensures ok ==> Valid(v.disk) && temp !in Now(v.disk)
                   && forall content :: MayHold(v.disk, target, content) <==> content == Some(text)
  {
    hide CrashSafe, Filling, KillSafe, MayHold, Valid;
    FillingIsSafe(v.disk, before, target, temp, file, text, true);
    ReplaceIsSafe(v.disk, before, target, temp, file, text);
    ok := v.Attempt(Renamed(v.disk, temp, target));
    if !ok {
      return;
    }
    ok := v.Attempt(DirectorySynced(v.disk));
  }

  method WriteEvidenceAtomically(v: Volume, target: string, temp: string, text: string, accepts: string -> bool)
    returns (exit: Exit)
    requires Valid(v.disk) && temp !in Now(v.disk) && temp != target
    modifies v
    ensures old(v.history) < v.history && v.disk == v.history[|v.history| - 1] && Valid(v.disk)
    ensures AllCrashSafe(v.history, |old(v.history)|, old(v.disk), target, text, accepts(text))
    ensures exit == Returned <==> accepts(text) && NoneFails(v.fails, old(v.step), old(v.step) + |text| + 6)
    ensures exit == Returned ==> accepts(text) && forall content ::
            MayHold(v.disk, target, content) <==> content == Some(text)
    ensures exit != RaisedInCleanup ==> temp !in Now(v.disk)
  {
    hide CrashSafe, Filling, KillSafe, MayHold, NoneFails;
    ghost var before, from, until := v.disk, v.step, v.step + |text| + 6;
    var file := |v.disk.inodes|;
    CreatedIsFilling(before, target, temp);
    NothingDone(before, target, text, accepts(text));
    var ok := v.Attempt(Created(v.disk, temp));
    if !ok {
      FailsWithin(v.fails, from, from, until);
      return Raised;
    }
    FillingIsSafe(v.disk, before, target, temp, file, text, accepts(text));
    ghost var created := v.history;
    ok := FillAndReplace(v, target, temp, file, text, accepts, before);
    OneEarlier(v.fails, from, until);
    if temp in Now(v.disk) {
      FillingIsSafe(v.disk, before, target, temp, file, text, accepts(text));
      UnlinkIsSafe(v.disk, before, target, temp, file, text, accepts(text));
      var removed := v.Attempt(Unlinked(v.disk, temp));
      if !removed {
        return RaisedInCleanup;
      }
    }
    exit := if ok then Returned else Raised;
  }

  // ------------------------------------------------------------------ the writer without syncs

  ghost predicate AllKillSafe(history: seq<Disk>, start: nat, before: Disk, target: string, text: string)
    requires Valid(before)
  {
    forall k | start <= k < |history| :: Valid(history[k]) && KillSafe(history[k], before, target, text)
  }

  lemma WritingIsKillSafe(history: seq<Disk>, start: nat, d: Disk, before: Disk, target: string, temp: string,
                          file: nat, text: string)
    requires Valid(before) && Filling(d, before, target, temp, file) && d.inodes[file] == Inode("", 0)
    requires AllPrefixes(history, start, d, file, text)
    ensures AllKillSafe(history, start, before, target, text)
  {
    hide Filling, CrashSafe, KillSafe;
    FillingIsSafe(d, before, target, temp, file, text, true);
    WritingIsSafe(history, start, d, before, target, temp, file, text, true);
    forall k | start <= k < |history|
      ensures Valid(history[k]) && KillSafe(history[k], before, target, text)
    {
      var n :| 0 <= n <= |text| && history[k] == Appended(d, file, text[..n]);
      FillingIsSafe(Appended(d, file, text[..n]), before, target, temp, file, text, true);
    }
  }

  lemma UnsyncedReplaceIsKillSafe(d: Disk, before: Disk, target: string, temp: string, file: nat, text: string)
    requires Valid(before) && Filling(d, before, target, temp, file) && temp != target && d.inodes[file].written == text
    ensures Valid(Renamed(d, temp, target)) && temp !in Now(Renamed(d, temp, target))
    ensures KillSafe(Renamed(d, temp, target), before, target, text)
            && Content(Renamed(d, temp, target), target) == Some(text)
  {
    RenamedIsInPlace(d, before, target, temp, file, text);
  }

  // Refuses text that is not redacted before anything is created.
  method WriteRedactedEvidence(v: Volume, target: string, temp: string, text: string, redacted: bool)
    returns (exit: Exit)
    requires Valid(v.disk) && temp !in Now(v.disk) && temp != target
    modifies v
    ensures old(v.history) <= v.history
            && v.disk == (if v.history == old(v.history) then old(v.disk) else v.history[|v.history| - 1])
    ensures Valid(v.disk) && AllKillSafe(v.history, |old(v.history)|, old(v.disk), target, text)
    ensures exit == Returned <==> redacted && NoneFails(v.fails, old(v.step), old(v.step) + |text| + 4)
    ensures exit == Returned ==> redacted && Content(v.disk, target) == Some(text)
    ensures !redacted ==> v.disk == old(v.disk)
    ensures exit != RaisedInCleanup ==> temp !in Now(v.disk)
  {
    hide CrashSafe, Filling, KillSafe, MayHold, Content;
    if !redacted {
      return Raised;
    }
    ghost var before := v.disk;
    var file := |v.disk.inodes|;
    CreatedIsFilling(before, target, temp);
    NothingDone(before, target, text, true);
    var ok := v.Attempt(Created(v.disk, temp));
    if !ok {
      return Raised;
    }
    FillingIsSafe(v.disk, before, target, temp, file, text, true);
    ok := FillUnsynced(v, target, temp, file, text, before);
    if temp in Now(v.disk) {
      FillingIsSafe(v.disk, before, target, temp, file, text, true);
      UnlinkIsSafe(v.disk, before, target, temp, file, text, true);
      var removed := v.Attempt(Unlinked(v.disk, temp));
      if !removed {
        return RaisedInCleanup;
      }
    }
    exit := if ok then Returned else Raised;
  }

  method FillUnsynced(v: Volume, target: string, temp: string, file: nat, text: string, ghost before: Disk)
    returns (ok: bool)
    requires Valid(before) && Filling(v.disk, before, target, temp, file) && temp != target
             && v.disk.inodes[file] == Inode("", 0)
    modifies v
    ensures old(v.history) < v.history && v.disk == v.history[|v.history| - 1]
    ensures AllKillSafe(v.history, |old(v.history)|, before, target, text)
    ensures Filling(v.disk, before, target, temp, file) || (Valid(v.disk) && temp !in Now(v.disk))
    ensures ok <==> NoneFails(v.fails, old(v.step), old(v.step) + |text| + 3)
    ensures ok ==> Valid(v.disk) && temp !in Now(v.disk) && Content(v.disk, target) == Some(text)
  {
    hide CrashSafe, Filling, KillSafe, MayHold, Content, Valid;
    ghost var empty := v.disk;
    FillingIsSafe(empty, before, target, temp, file, text, true);
    ok := v.Attempt(v.disk);
    if !ok {
      return;
    }
    ghost var prepared := v.history;
    ok := v.WriteText(file, text);
    WritingIsSafe(v.history, |prepared|, empty, before, target, temp, file, text, true);
    WritingIsKillSafe(v.history, |prepared|, empty, before, target, temp, file, text);
    assert text[..|text|] == text;
    if !ok {
      return;
    }
    FillingIsSafe(v.disk, before, target, temp, file, text, true);
    UnsyncedReplaceIsKillSafe(v.disk, before, target, temp, file, text);
    ok := v.Attempt(Renamed(v.disk, temp, target));
    if !ok {
      return;
    }
    ok := v.Attempt(v.disk);
  }

  lemma NothingDone(d: Disk, target: string, text: string, accepted: bool)
    requires Valid(d)
    ensures CrashSafe(d, d, target, text, accepted) && KillSafe(d, d, target, text)
  {}
}
