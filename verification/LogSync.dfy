/** Moving the transient logs to the persistent log folder before a reboot. */
module LogSync {
  import opened CStrings

  type Bytes = string

  const CHUNK: nat := 4096
  const PATH_BUFFER: nat := 512

  /** What the disk does to one file: whether it can be opened on either side and emptied again,
      which fwrite comes up short and by what, and how many accepted bytes never reach the file
      when it is closed. */
  datatype Disk = Disk(sourceOpens: bool, targetOpens: bool, shortWrite: Option<nat>, partial: nat,
                       lost: nat, truncates: bool)

  predicate HasSuffix(s: string, suffix: string)
  {
    |s| >= |suffix| && s[|s| - |suffix|..] == suffix
  }

  predicate PathFits(folder: string, name: string) { |folder| + 1 + |name| < PATH_BUFFER }

  /** The names sync_logs_from_temp copies. */
  predicate Selected(tempPath: string, logPath: string, name: string)
  {
    (HasSuffix(name, ".txt") || HasSuffix(name, ".log")) && PathFits(tempPath, name) && PathFits(logPath, name)
  }

  /** Every fwrite of this file takes its whole chunk. */
  predicate WritesSucceed(src: Bytes, d: Disk)
  {
    d.shortWrite.None? || d.shortWrite.value * CHUNK >= |src|
  }

  function Least(a: nat, b: nat): nat { if a < b then a else b }

  /** The accepted bytes that are in the file after it was closed. */
  function Landed(accepted: Bytes, d: Disk): Bytes { accepted[..|accepted| - Least(d.lost, |accepted|)] }

  /** The chunked copy: true when every chunk was taken. */
  method CopyChunks(src: Bytes, d: Disk) returns (ok: bool, accepted: Bytes)
    ensures accepted <= src
    ensures ok <==> WritesSucceed(src, d)
    ensures ok <==> accepted == src
  {
    ok, accepted := true, [];
    var k := 0;
    var n := Least(CHUNK, |src|);
    while n > 0
      invariant |accepted| == Least(k * CHUNK, |src|) && accepted == src[..|accepted|]
      invariant n == Least(CHUNK, |src| - |accepted|)
      invariant d.shortWrite.Some? ==> k <= d.shortWrite.value || d.shortWrite.value * CHUNK >= |src|
      decreases |src| - |accepted|
    {
      var pos := |accepted|;
      var wrote := if d.shortWrite == Some(k) then Least(d.partial, n - 1) else n;
      accepted := accepted + src[pos..pos + wrote];
      assert accepted == src[..pos + wrote];
      if wrote != n {
        ok := false;
        break;
      }
      k := k + 1;
      n := Least(CHUNK, |src| - |accepted|);
    }
  }

  class Folders {
    var temp: map<string, Bytes>
    var log: map<string, Bytes>

    constructor (temp: map<string, Bytes>, log: map<string, Bytes>)
      ensures this.temp == temp && this.log == log
    {
      this.temp, this.log := temp, log;
    }

    /** One round of the directory loop, for a name that is to be copied. */
    method SyncOne(name: string, d: Disk)
      requires name in temp
      modifies this
      ensures SyncedOne(old(temp), old(log), temp, log, name, d)
      ensures temp.Keys == old(temp.Keys)
      ensures forall other :: other != name ==> SameFile(old(temp), temp, other) && SameFile(old(log), log, other)
    {
      if d.targetOpens && name !in log { log := log[name := []]; }
      if !d.sourceOpens || !d.targetOpens { return; }
      var ok, accepted := CopyChunks(temp[name], d);
      log := log[name := log[name] + Landed(accepted, d)];
      assert Landed(accepted, d) == old(temp)[name][..|Landed(accepted, d)|];
      if !ok { return; }
      if d.truncates { temp := temp[name := []]; }
    }

    /** sync_logs_from_temp: every text and log file whose paths fit is moved to the end of its
        namesake when the disk plays along, and no file of another kind is touched. */
    method SyncLogs(tempPath: string, logPath: string, opens: bool, disk: string -> Disk)
      modifies this
      ensures tempPath == logPath || !opens ==> temp == old(temp) && log == old(log)
      ensures tempPath != logPath && opens ==>
                forall name :: Settled(old(temp), old(log), temp, log, name, disk(name),
                                       name in old(temp) && Selected(tempPath, logPath, name))
      ensures forall stem: string, name :: (name == stem + ".log" || name == stem + ".txt") && name in old(temp) ==>
                (tempPath != logPath && opens && |tempPath| + 1 + |name| < 512 && |logPath| + 1 + |name| < 512 && Healthy(disk(name)) ==>
                   name in temp && temp[name] == [] && name in log && log[name] == Contents(old(log), name) + old(temp)[name])
      ensures forall name :: IsNoLog(name) ==> SameFile(old(temp), temp, name) && SameFile(old(log), log, name)
      ensures temp.Keys == old(temp.Keys) && forall name :: Contents(old(log), name) <= Contents(log, name)
      ensures forall name :: name in old(temp) ==>
                (Conserved(old(temp), old(log), temp, log, name) <==>
                 tempPath == logPath || !opens || !Selected(tempPath, logPath, name) || !DropsOnClose(old(temp)[name], disk(name)))
    {
      if tempPath == logPath { return; }
      if !opens { return; }
      LogsAreSelected();
      hide Selected, SyncedOne, Settled, SameFile, Conserved, DropsOnClose, Contents;
      var todo := temp.Keys;
      NothingSettled(temp, log, disk);
      while todo != {}
        invariant temp.Keys == old(temp.Keys) && todo <= temp.Keys
        invariant forall name :: Settled(old(temp), old(log), temp, log, name, disk(name),
                                         name in old(temp) && name !in todo && Selected(tempPath, logPath, name))
        decreases todo
      {
        var name :| name in todo;
        todo := todo - {name};
        if !Selected(tempPath, logPath, name) { continue; }
        ghost var t, l := temp, log;
        SyncOne(name, disk(name));
        forall other ensures Settled(old(temp), old(log), temp, log, other, disk(other),
                                     other in old(temp) && other !in todo && Selected(tempPath, logPath, other))
        {
          if other == name {
            SyncedTransfers(old(temp), old(log), t, l, temp, log, name, disk(name));
          } else {
            SettledStays(old(temp), old(log), t, l, temp, log, other, disk(other),
                         other in old(temp) && other !in todo && Selected(tempPath, logPath, other));
          }
        }
      }
      forall name ensures Contents(old(log), name) <= Contents(log, name)
        ensures name in old(temp) ==>
                  (Conserved(old(temp), old(log), temp, log, name) <==>
                   !Selected(tempPath, logPath, name) || !DropsOnClose(old(temp)[name], disk(name)))
      {
        SettledConserves(old(temp), old(log), temp, log, name, disk(name), name in old(temp) && Selected(tempPath, logPath, name));
      }
      SettledTells(tempPath, logPath, old(temp), old(log), temp, log, disk);
    }
  }

  /** Both files open, every write takes its chunk, nothing is lost on closing, and the source is emptied. */
  predicate Healthy(d: Disk)
  {
    d.sourceOpens && d.targetOpens && d.shortWrite.None? && d.lost == 0 && d.truncates
  }

  /** The name ends neither in .log nor in .txt. */
  ghost predicate IsNoLog(name: string)
  {
    forall stem: string :: name != stem + ".log" && name != stem + ".txt"
  }

  lemma EndsWith(name: string, suffix: string)
    ensures HasSuffix(name, suffix) <==> exists stem: string :: name == stem + suffix
  {
    if HasSuffix(name, suffix) { assert name == name[..|name| - |suffix|] + suffix; }
  }

  /** What is selected, by the ends of the names. */
  lemma LogsAreSelected()
    ensures forall stem: string, name :: name == stem + ".log" || name == stem + ".txt" ==> !IsNoLog(name)
    ensures forall tempPath: string, logPath: string, name ::
              Selected(tempPath, logPath, name) <==> !IsNoLog(name) && |tempPath| + 1 + |name| < 512 && |logPath| + 1 + |name| < 512
  {
    hide HasSuffix;
    forall tempPath: string, logPath: string, name
      ensures Selected(tempPath, logPath, name) <==> !IsNoLog(name) && |tempPath| + 1 + |name| < 512 && |logPath| + 1 + |name| < 512
    {
      EndsWith(name, ".log");
      EndsWith(name, ".txt");
    }
  }

  lemma SettledTells(tempPath: string, logPath: string, temp: map<string, Bytes>, log: map<string, Bytes>,
                     temp': map<string, Bytes>, log': map<string, Bytes>, disk: string -> Disk)
    requires forall name :: Settled(temp, log, temp', log', name, disk(name), name in temp && Selected(tempPath, logPath, name))
    ensures forall name :: name in temp && Selected(tempPath, logPath, name) && Healthy(disk(name)) ==>
              name in temp' && temp'[name] == [] && name in log' && log'[name] == Contents(log, name) + temp[name]
    ensures forall name :: !Selected(tempPath, logPath, name) ==> SameFile(temp, temp', name) && SameFile(log, log', name)
  {
    hide Selected;
  }

  /** Copied as described, or the same in both folders. */
  ghost predicate Settled(temp: map<string, Bytes>, log: map<string, Bytes>,
                          temp': map<string, Bytes>, log': map<string, Bytes>, name: string, d: Disk, copied: bool)
  {
    if copied then SyncedOne(temp, log, temp', log', name, d)
    else SameFile(temp, temp', name) && SameFile(log, log', name)
  }

  lemma NothingSettled(temp: map<string, Bytes>, log: map<string, Bytes>, disk: string -> Disk)
    ensures forall name :: Settled(temp, log, temp, log, name, disk(name), false)
  {
  }

  /** A file is there, or missing, with the same contents in both folders' states. */
  ghost predicate SameFile(before: map<string, Bytes>, after: map<string, Bytes>, name: string)
  {
    (name in before <==> name in after) && (name in before ==> before[name] == after[name])
  }

  function Contents(folder: map<string, Bytes>, name: string): Bytes { if name in folder then folder[name] else [] }

  /** What the copy of one file comes to. */
  ghost predicate SyncedOne(temp: map<string, Bytes>, log: map<string, Bytes>,
                            temp': map<string, Bytes>, log': map<string, Bytes>, name: string, d: Disk)
  {
    && name in temp && name in temp'
    && var src, dst := temp[name], Contents(log, name);
       if !d.targetOpens then temp'[name] == src && SameFile(log, log', name)
       else
         && name in log'
         && (!d.sourceOpens ==> temp'[name] == src && log'[name] == dst)
         && (d.sourceOpens && !WritesSucceed(src, d) ==>
               temp'[name] == src && exists n :: 0 <= n < |src| && log'[name] == dst + src[..n])
         && (d.sourceOpens && WritesSucceed(src, d) ==>
               temp'[name] == (if d.truncates then [] else src) && log'[name] == dst + Landed(src, d))
  }

  lemma SyncedTransfers(temp0: map<string, Bytes>, log0: map<string, Bytes>, temp: map<string, Bytes>, log: map<string, Bytes>,
                        temp': map<string, Bytes>, log': map<string, Bytes>, name: string, d: Disk)
    requires Settled(temp0, log0, temp, log, name, d, false) && SyncedOne(temp, log, temp', log', name, d)
    ensures Settled(temp0, log0, temp', log', name, d, true)
  {
  }

  lemma SettledStays(temp0: map<string, Bytes>, log0: map<string, Bytes>, temp: map<string, Bytes>, log: map<string, Bytes>,
                     temp': map<string, Bytes>, log': map<string, Bytes>, name: string, d: Disk, copied: bool)
    requires Settled(temp0, log0, temp, log, name, d, copied) && SameFile(temp, temp', name) && SameFile(log, log', name)
    ensures Settled(temp0, log0, temp', log', name, d, copied)
  {
  }

  // ----- conservation

  /** The bytes of the source are still there: in place, or whole behind what the target had. */
  ghost predicate Conserved(temp: map<string, Bytes>, log: map<string, Bytes>,
                            temp': map<string, Bytes>, log': map<string, Bytes>, name: string)
  {
    Contents(temp', name) == Contents(temp, name) || Contents(log', name) == Contents(log, name) + Contents(temp, name)
  }

  /** The file looks fully copied and is emptied although its last bytes fail to land on closing. */
  predicate DropsOnClose(src: Bytes, d: Disk)
  {
    d.sourceOpens && d.targetOpens && d.truncates && WritesSucceed(src, d) && d.lost > 0 && src != []
  }

  /** The target never loses what it had; the source's bytes are conserved exactly unless the file
      is emptied after a close that dropped some. */
  lemma ConservedExactly(temp: map<string, Bytes>, log: map<string, Bytes>,
                         temp': map<string, Bytes>, log': map<string, Bytes>, name: string, d: Disk)
    requires SyncedOne(temp, log, temp', log', name, d)
    ensures Contents(log, name) <= Contents(log', name)
    ensures Conserved(temp, log, temp', log', name) <==> !DropsOnClose(temp[name], d)
  {
    var src := temp[name];
    var landed := Landed(src, d);
    assert landed == src <==> d.lost == 0 || src == [];
    if d.targetOpens && name in log' && d.sourceOpens && WritesSucceed(src, d) {
      assert |log'[name]| == |Contents(log, name)| + |landed|;
    }
  }

  lemma SettledConserves(temp: map<string, Bytes>, log: map<string, Bytes>, temp': map<string, Bytes>, log': map<string, Bytes>,
                         name: string, d: Disk, copied: bool)
    requires Settled(temp, log, temp', log', name, d, copied)
    ensures Contents(log, name) <= Contents(log', name)
    ensures name in temp ==> (Conserved(temp, log, temp', log', name) <==> !copied || !DropsOnClose(temp[name], d))
  {
    if copied { ConservedExactly(temp, log, temp', log', name, d); }
  }
}
