/** Replacing several files: stage every new text beside its target, then rename one after another. */
module AtomicWrite {

  datatype Entry = Entry(file: string, text: string)

  /** The file-system calls made for entry `i`; which of them fail is up to the outside. */
  datatype Call = RealPath(i: nat) | Stat(i: nat) | Write(i: nat) | Rename(i: nat) | Remove(i: nat)

  datatype Outcome = Done | Failed(partial: bool)

  /** What realpath makes of a file. */
  function RealPathOf(links: map<string, string>, file: string): string { if file in links then links[file] else file }

  /** Where an entry goes: its real path, the temporary file beside it, and the new text. */
  datatype Job = Job(target: string, temp: string, text: string)

  /** Distinct targets, none of which is another one's temporary file. */
  ghost predicate Separate(jobs: seq<Job>) {
    && (forall i, j :: 0 <= i < j < |jobs| ==> jobs[i].target != jobs[j].target && jobs[i].temp != jobs[j].temp)
    && (forall i, j :: 0 <= i < |jobs| && 0 <= j < |jobs| ==> jobs[i].target != jobs[j].temp)
  }

  /** The first `k` targets hold their new texts, and the others what they held in `before`. */
  ghost predicate FirstReplaced(jobs: seq<Job>, before: map<string, string>, files: map<string, string>, k: nat) {
    forall i :: 0 <= i < |jobs| && jobs[i].target in before ==>
      && jobs[i].target in files
      && files[jobs[i].target] == if i < k then jobs[i].text else before[jobs[i].target]
  }

  ghost predicate Staged(jobs: seq<Job>, files: map<string, string>, from: nat, to: nat) {
    forall i :: from <= i < to && i < |jobs| ==> jobs[i].temp in files && files[jobs[i].temp] == jobs[i].text
  }

  ghost predicate Concerns(jobs: seq<Job>, p: string) {
    exists i :: 0 <= i < |jobs| && (p == jobs[i].target || p == jobs[i].temp)
  }

  /** Nothing but targets and their temporary files is touched. */
  ghost predicate OthersKept(jobs: seq<Job>, before: map<string, string>, files: map<string, string>) {
    forall p :: !Concerns(jobs, p) ==> (p in files <==> p in before) && (p in files ==> files[p] == before[p])
  }

  /** No call fails, and every target is there. */
  ghost predicate AllGoesWell(jobs: seq<Job>, files: map<string, string>, fails: Call -> bool) {
    && Separate(jobs) && (forall c :: !fails(c))
    && forall i :: 0 <= i < |jobs| ==> jobs[i].target in files
  }

  lemma StagingStep(jobs: seq<Job>, before: map<string, string>, files: map<string, string>, i: nat, text: string)
    requires i < |jobs|
    ensures OthersKept(jobs, before, files) ==> OthersKept(jobs, before, files[jobs[i].temp := text])
    ensures Separate(jobs) && FirstReplaced(jobs, before, files, 0) ==> FirstReplaced(jobs, before, files[jobs[i].temp := text], 0)
    ensures Separate(jobs) && Staged(jobs, files, 0, i) && text == jobs[i].text ==>
      Staged(jobs, files[jobs[i].temp := text], 0, i + 1)
  {
    assert Concerns(jobs, jobs[i].temp);
  }

  lemma RenameStep(jobs: seq<Job>, before: map<string, string>, files: map<string, string>, i: nat)
    requires i < |jobs| && jobs[i].temp in files
    ensures var after := (files - {jobs[i].temp})[jobs[i].target := files[jobs[i].temp]];
      && (OthersKept(jobs, before, files) ==> OthersKept(jobs, before, after))
      && (Separate(jobs) && Staged(jobs, files, i, |jobs|) && FirstReplaced(jobs, before, files, i) ==>
            Staged(jobs, after, i + 1, |jobs|) && FirstReplaced(jobs, before, after, i + 1))
  {
    assert Concerns(jobs, jobs[i].temp) && Concerns(jobs, jobs[i].target);
  }

  lemma RemoveStep(jobs: seq<Job>, before: map<string, string>, files: map<string, string>, i: nat, k: nat)
    requires i < |jobs|
    ensures OthersKept(jobs, before, files) ==> OthersKept(jobs, before, files - {jobs[i].temp})
    ensures Separate(jobs) && FirstReplaced(jobs, before, files, k) ==> FirstReplaced(jobs, before, files - {jobs[i].temp}, k)
  {
    assert Concerns(jobs, jobs[i].temp);
  }

  class Disk {
    const links: map<string, string>   // what realpath resolves; a path not listed is its own
    const suffix: string               // ".<pid>.tmp"
    var files: map<string, string>

    constructor (links: map<string, string>, suffix: string, files: map<string, string>)
      ensures this.links == links && this.suffix == suffix && this.files == files
    {
      this.links, this.suffix, this.files := links, suffix, files;
    }

    function Target(file: string): string { RealPathOf(links, file) }

    function JobOf(e: Entry): Job { Job(Target(e.file), Target(e.file) + suffix, e.text) }

    function Jobs(entries: seq<Entry>): seq<Job> {
      seq(|entries|, i requires 0 <= i < |entries| => JobOf(entries[i]))
    }

    method Stage(jobs: seq<Job>, fails: Call -> bool, torn: nat -> string) returns (staged: nat, ok: bool)
      modifies this`files
      ensures staged <= |jobs| && (ok ==> staged == |jobs|) && (!ok ==> jobs != [])
      ensures Separate(jobs) ==> FirstReplaced(jobs, old(files), files, 0)
      ensures Separate(jobs) && ok ==> Staged(jobs, files, 0, |jobs|)
      ensures OthersKept(jobs, old(files), files)
      ensures AllGoesWell(jobs, old(files), fails) ==> ok
    {
      staged := 0;
      while staged < |jobs|
        invariant staged <= |jobs|
        invariant Separate(jobs) ==> FirstReplaced(jobs, old(files), files, 0) && Staged(jobs, files, 0, staged)
        invariant OthersKept(jobs, old(files), files)
        invariant forall p :: p in old(files) ==> p in files
      {
        if fails(RealPath(staged)) || jobs[staged].target !in files || fails(Stat(staged)) {
          return staged, false;
        }
        var written := if fails(Write(staged)) then torn(staged) else jobs[staged].text;
        StagingStep(jobs, old(files), files, staged, written);
        files := files[jobs[staged].temp := written];
        if fails(Write(staged)) {
          return staged + 1, false;
        }
        staged := staged + 1;
      }
      ok := true;
    }

    /** The renames, in order; `replaced` of them went through. */
    method RenameAll(jobs: seq<Job>, fails: Call -> bool, ghost before: map<string, string>) returns (replaced: nat)
      requires OthersKept(jobs, before, files)
      requires Separate(jobs) ==> FirstReplaced(jobs, before, files, 0) && Staged(jobs, files, 0, |jobs|)
      modifies this`files
      ensures replaced <= |jobs|
      ensures Separate(jobs) ==> FirstReplaced(jobs, before, files, replaced)
      ensures OthersKept(jobs, before, files)
      ensures Separate(jobs) && (forall c :: !fails(c)) ==> replaced == |jobs|
    {
      replaced := 0;
      while replaced < |jobs|
        invariant replaced <= |jobs|
        invariant Separate(jobs) ==> FirstReplaced(jobs, before, files, replaced) && Staged(jobs, files, replaced, |jobs|)
        invariant OthersKept(jobs, before, files)
      {
        if fails(Rename(replaced)) || jobs[replaced].temp !in files {
          return;
        }
        RenameStep(jobs, before, files, replaced);
        files := (files - {jobs[replaced].temp})[jobs[replaced].target := files[jobs[replaced].temp]];
        replaced := replaced + 1;
      }
    }

    /** Remove what is left of the first `staged` temporary files; a removal that fails is swallowed. */
    method CleanUp(jobs: seq<Job>, staged: nat, fails: Call -> bool, ghost before: map<string, string>, ghost k: nat)
      requires staged <= |jobs| && OthersKept(jobs, before, files)
      requires Separate(jobs) ==> FirstReplaced(jobs, before, files, k)
      modifies this`files
      ensures Separate(jobs) ==> FirstReplaced(jobs, before, files, k)
      ensures forall i :: 0 <= i < staged && !fails(Remove(i)) ==> jobs[i].temp !in files
      ensures OthersKept(jobs, before, files)
    {
      var n := 0;
      while n < staged
        invariant n <= staged && OthersKept(jobs, before, files)
        invariant Separate(jobs) ==> FirstReplaced(jobs, before, files, k)
        invariant forall i :: 0 <= i < n && !fails(Remove(i)) ==> jobs[i].temp !in files
      {
        if !fails(Remove(n)) {
          RemoveStep(jobs, before, files, n, k);
          files := files - {jobs[n].temp};
        }
        n := n + 1;
      }
    }

    /**
     * Whatever fails, the first `replaced` targets and no others hold their new texts; `partial` is
     * set exactly when that is some of them but not all; and no temporary file staged by the run
     * outlives it unless its own removal failed.
     */
    method WriteFilesAtomic(entries: seq<Entry>, fails: Call -> bool, torn: nat -> string)
      returns (out: Outcome, replaced: nat, staged: nat)
      modifies this`files
      ensures replaced <= |entries| && staged <= |entries| && (replaced > 0 ==> staged == |entries|)
      ensures out == if replaced == |entries| then Done else Failed(0 < replaced < |entries|)
      ensures Separate(Jobs(entries)) ==> FirstReplaced(Jobs(entries), old(files), files, replaced)
      ensures forall i :: 0 <= i < staged && !fails(Remove(i)) ==> Jobs(entries)[i].temp !in files
      ensures OthersKept(Jobs(entries), old(files), files)
      ensures AllGoesWell(Jobs(entries), old(files), fails) ==> out == Done
    {
      var jobs := Jobs(entries);
      var ok;
      staged, ok := Stage(jobs, fails, torn);
      replaced := 0;
      if ok {
        replaced := RenameAll(jobs, fails, old(files));
      }
      out := if ok && replaced == |jobs| then Done else Failed(replaced > 0);
      CleanUp(jobs, staged, fails, old(files), replaced);
    }

    /** A file named through a link is replaced where the link leads. */
    lemma WritesThroughLinks(entries: seq<Entry>, before: map<string, string>, k: nat, i: nat)
      requires FirstReplaced(Jobs(entries), before, files, k) && i < k && i < |entries|
      requires entries[i].file in links && links[entries[i].file] in before
      ensures links[entries[i].file] in files && files[links[entries[i].file]] == entries[i].text
    {
      assert Jobs(entries)[i].target == links[entries[i].file];
    }

    /** Distinct real paths, none of which is another's temporary file. */
    ghost predicate SeparatePaths(names: seq<string>) {
      && suffix != ""
      && (forall i, j :: 0 <= i < j < |names| ==> Target(names[i]) != Target(names[j]))
      && (forall i, j :: 0 <= i < |names| && 0 <= j < |names| && i != j ==> Target(names[i]) != Target(names[j]) + suffix)
    }

    /** Only equal targets share a temporary file. */
    lemma TempsDiffer(e: Entry, f: Entry)
      ensures JobOf(e).temp == JobOf(f).temp ==> JobOf(e).target == JobOf(f).target
    {
      var t, u := Target(e.file), Target(f.file);
      if t + suffix == u + suffix {
        assert |t| == |u|;
        assert t == (t + suffix)[..|t|] && u == (u + suffix)[..|u|];
      }
    }

    /** So what is written for files with separate paths is separate. */
    lemma SeparatePathsSeparateJobs(entries: seq<Entry>, names: seq<string>)
      requires |names| == |entries| && forall i :: 0 <= i < |names| ==> names[i] == entries[i].file
      requires SeparatePaths(names)
      ensures Separate(Jobs(entries))
    {
      var jobs := Jobs(entries);
      forall i, j | 0 <= i < j < |jobs| ensures jobs[i].target != jobs[j].target && jobs[i].temp != jobs[j].temp {
        assert Target(names[i]) != Target(names[j]);
        TempsDiffer(entries[i], entries[j]);
      }
      forall i, j | 0 <= i < |jobs| && 0 <= j < |jobs| ensures jobs[i].target != jobs[j].temp {
        if i == j { assert |jobs[i].temp| > |jobs[i].target|; } else { assert Target(names[i]) != Target(names[j]) + suffix; }
      }
    }
  }
}
