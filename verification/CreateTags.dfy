/** When two VMs carry the server's tag at once: exactly when a create tags one while another, whose
    deletion by its own create was refused, still carries it. */
module CreateTags {
  import opened Options
  import opened JobTableModel
  import JobHandlers
  import opened CreateModel
  import opened CreateRuns

  ghost predicate AtMostOne(tagged: set<nat>) {
    forall v, w | v in tagged && w in tagged :: v == w
  }

  /** At no moment up to `n` do two VMs carry the tag. */
  ghost predicate OneVm(run: seq<Saga>, n: nat)
    requires n < |run|
  {
    forall k | 0 <= k <= n :: AtMostOne(run[k].tagged)
  }

  // ---- the strays, over the inputs ----

  /** The create of VM `v` is refused its deletion, and the VM carries the tag. */
  ghost predicate Refused(s: Saga, i: Input, v: nat) {
    i.DeleteEnds? && !i.ok && i.e < |s.execs| && s.execs[i.e] == AtDelete(v) && v in s.tagged
  }

  /** A rollback deletes VM `v`. */
  ghost predicate RollsBack(s: Saga, i: Input, v: nat) {
    i.Compensates? && s.row.host != None && v in Refs(s, i.found) && v in i.deleted
  }

  /** VM `v` is deleted, or its id belongs to a new create. */
  ghost predicate Settles(s: Saga, i: Input, v: nat) {
    Deletes(s, i, v) || RollsBack(s, i, v) || TagsVm(s, i, v)
  }

  /** The deletion of `v` was refused at `j`, and nothing settled it before `k`. */
  ghost predicate LeftSince(run: seq<Saga>, ins: seq<Input>, j: nat, k: nat, v: nat)
    requires j < k <= |ins| <= |run|
  {
    Refused(run[j], ins[j], v) && forall m | j < m < k :: !Settles(run[m], ins[m], v)
  }

  ghost predicate Left(run: seq<Saga>, ins: seq<Input>, k: nat, v: nat)
    requires k <= |ins| <= |run|
  {
    exists j :: 0 <= j < k && LeftSince(run, ins, j, k, v)
  }

  lemma StrayStepIff(server: string, workflow: string, s: Saga, i: Input, v: nat)
    requires Enabled(s, i)
    ensures v in Step(server, workflow, s, i).strays
            <==> Refused(s, i, v) || (v in s.strays && !Settles(s, i, v))
  {
    hide JobId, Effect, After, JobHandlers.Step;
  }

  lemma LeftStep(run: seq<Saga>, ins: seq<Input>, k: nat, v: nat)
    requires k < |ins| <= |run|
    ensures Left(run, ins, k + 1, v)
            <==> Refused(run[k], ins[k], v) || (Left(run, ins, k, v) && !Settles(run[k], ins[k], v))
  {
    hide Refused, Settles;
    LeftNow(run, ins, k, v);
    if Left(run, ins, k, v) && !Settles(run[k], ins[k], v) {
      var j :| 0 <= j < k && LeftSince(run, ins, j, k, v);
      LeftOn(run, ins, j, k, v);
    }
    if Left(run, ins, k + 1, v) {
      var j :| 0 <= j < k + 1 && LeftSince(run, ins, j, k + 1, v);
      if j < k { LeftOn(run, ins, j, k, v); }
    }
  }

  lemma LeftNow(run: seq<Saga>, ins: seq<Input>, k: nat, v: nat)
    requires k < |ins| <= |run|
    ensures LeftSince(run, ins, k, k + 1, v) <==> Refused(run[k], ins[k], v)
  {
    hide Refused, Settles;
  }

  lemma LeftOn(run: seq<Saga>, ins: seq<Input>, j: nat, k: nat, v: nat)
    requires j < k < |ins| <= |run|
    ensures LeftSince(run, ins, j, k + 1, v) <==> LeftSince(run, ins, j, k, v) && !Settles(run[k], ins[k], v)
  {
    hide Refused, Settles;
  }

  /** The strays are exactly the VMs whose deletion was refused and that nothing settled since. */
  lemma {:induction false} StraysAreLeft(
      server: string, workflow: string, run: seq<Saga>, ins: seq<Input>, k: nat, v: nat)
    requires IsRun(server, workflow, run, ins) && k < |run|
    ensures |run| == |ins| + 1 && (v in run[k].strays <==> Left(run, ins, k, v))
    decreases k
  {
    hide IsRun, Enabled, Step, Refused, Settles, Left;
    RunLength(server, workflow, run, ins);
    if k == 0 {
      NothingLeftAtFirst(server, workflow, run, ins, v);
    } else {
      RunStep(server, workflow, run, ins, k - 1);
      StraysAreLeft(server, workflow, run, ins, k - 1, v);
      LeftStep(run, ins, k - 1, v);
      StrayStepIff(server, workflow, run[k - 1], ins[k - 1], v);
    }
  }

  lemma NothingLeftAtFirst(server: string, workflow: string, run: seq<Saga>, ins: seq<Input>, v: nat)
    requires IsRun(server, workflow, run, ins)
    ensures run[0].strays == {} && run[0].tagged == {} && !Left(run, ins, 0, v)
  {
    hide Enabled, Step;
  }

  // ---- the tagged VMs ----

  /** Only a create that configures its VM adds to the tagged VMs. */
  lemma TaggedStep(server: string, workflow: string, s: Saga, i: Input, w: nat)
    requires Enabled(s, i)
    ensures TagsVm(s, i, w) ==> Step(server, workflow, s, i).tagged == s.tagged + {w}
    ensures (forall v :: !TagsVm(s, i, v)) ==> Step(server, workflow, s, i).tagged <= s.tagged
  {
    hide JobId, Effect, After, JobHandlers.Step;
    if i.ConfigureEnds? && i.tagSet { assert TagsVm(s, i, s.execs[i.e].vm); }
  }

  /** When a create sets the tag, nothing but strays carries it. */
  lemma OnlyStraysAtTag(job: Id, s: Saga, i: Input, w: nat)
    requires SInv(job, s) && Enabled(s, i) && TagsVm(s, i, w)
    ensures s.tagged == s.strays
  {
    hide AgentInv, WfInv;
    InProgressIsLast(job, s, i.e);
    forall v | v in s.tagged ensures v in s.strays {
      assert v !in s.tagged - s.strays;
    }
  }

  /** A step keeps "at most one" exactly when it tags no VM beside a stray. */
  lemma OneStepIff(server: string, workflow: string, s: Saga, i: Input)
    requires SInv(JobId(server, workflow), s) && Enabled(s, i) && AtMostOne(s.tagged)
    ensures AtMostOne(Step(server, workflow, s, i).tagged) <==> forall w | TagsVm(s, i, w) :: s.strays <= {w}
  {
    hide SInv, Enabled, Step, JobId, TagsVm;
    if w :| TagsVm(s, i, w) {
      TaggedStep(server, workflow, s, i, w);
      OnlyStraysAtTag(JobId(server, workflow), s, i, w);
      OneTagged(s, i, w);
    } else {
      TaggedStep(server, workflow, s, i, 0);
    }
  }

  lemma OneTagged(s: Saga, i: Input, w: nat)
    requires TagsVm(s, i, w)
    ensures (forall v | TagsVm(s, i, v) :: s.strays <= {v}) <==> s.strays <= {w}
    ensures AtMostOne(s.strays + {w}) <==> s.strays <= {w}
  {
    assert forall v | TagsVm(s, i, v) :: v == w;
    if AtMostOne(s.strays + {w}) {
      forall v | v in s.strays ensures v == w { assert v in s.strays + {w} && w in s.strays + {w}; }
    }
  }

  /** No create up to `n` tags a VM while a stray other than it carries the tag. */
  ghost predicate NoTagBesideAStray(run: seq<Saga>, ins: seq<Input>, n: nat)
    requires n <= |ins| <= |run|
  {
    forall m | 0 <= m < n :: forall w | TagsVm(run[m], ins[m], w) :: run[m].strays <= {w}
  }

  lemma {:induction false} OneVmIffNoStray(
      server: string, workflow: string, run: seq<Saga>, ins: seq<Input>, n: nat)
    requires IsRun(server, workflow, run, ins) && n <= |ins|
    ensures |run| == |ins| + 1 && (OneVm(run, n) <==> NoTagBesideAStray(run, ins, n))
    decreases n
  {
    hide IsRun, Enabled, Step, SInv, JobId, TagsVm, AtMostOne;
    RunLength(server, workflow, run, ins);
    if n == 0 {
      NothingLeftAtFirst(server, workflow, run, ins, 0);
      NoneIsOne();
    } else {
      OneVmIffNoStray(server, workflow, run, ins, n - 1);
      RunStep(server, workflow, run, ins, n - 1);
      RunInv(server, workflow, run, ins, n - 1);
      if OneVm(run, n - 1) { OneStepIff(server, workflow, run[n - 1], ins[n - 1]); }
    }
  }

  lemma NoneIsOne()
    ensures AtMostOne({})
  {
  }

  /** Exactly when two VMs never carry the tag at once, over the events of the run: no create sets the
      tag on a VM while another, whose deletion by its own create was refused, was since then neither
      deleted nor created anew. */
  lemma NeverTwoVmsIff(server: string, workflow: string, run: seq<Saga>, ins: seq<Input>, n: nat)
    requires IsRun(server, workflow, run, ins) && n <= |ins|
    ensures |run| == |ins| + 1
    ensures OneVm(run, n)
            <==> forall m, v, w | 0 <= m < n && Left(run, ins, m, v) && TagsVm(run[m], ins[m], w) :: v == w
  {
    hide IsRun, Enabled, OneVm, Left, TagsVm;
    OneVmIffNoStray(server, workflow, run, ins, n);
    forall m, v | 0 <= m < n ensures v in run[m].strays <==> Left(run, ins, m, v) {
      StraysAreLeft(server, workflow, run, ins, m, v);
    }
  }
}
