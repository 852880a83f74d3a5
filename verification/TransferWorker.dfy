/** File transfers of src-tauri/src/transfer/worker.rs, over the SFTP reader and writer: one run
    of an item, and whole histories of interrupted, failed and resumed runs. */
module TransferWorker {
  import opened Wrappers
  import opened Conflict
  import Read = SftpRead
  import SftpWrite

  const BUFFER_SIZE := 131072

  datatype Outcome = Done | Skipped | Paused | Cancelled

  datatype TransferError = Io | Remote | SizeMismatch | PromptFailed

  /** What survives between runs of an item: the files on the target side, which of them is
      the item's target, and the progress that was last recorded. */
  datatype Job = Job(files: map<string, Bytes>, path: string, transferred: nat)

  datatype Plan = LeaveTarget | WriteFrom(offset: nat, path: string)

  /** The inputs to planning that the item does not determine: the policy in force (after the
      user was asked), modification times, whether the target could be examined at all, and
      the name a rename would use. */
  datatype Choice = Choice(policy: ConflictPolicy, sourceMtime: Option<int>, targetMtime: Option<int>,
                           statOk: bool, freshName: string)

  /** `plan_transfer` and `plan_copy`. A target that cannot be examined counts as missing. */
  function PlanTransfer(source: Bytes, job: Job, choice: Choice): Plan {
    if !choice.statOk || job.path !in job.files then
      WriteFrom(0, job.path)
    else
      var existing := |job.files[job.path]|;
      if job.transferred > 0 && existing <= |source| then
        WriteFrom(existing, job.path)
      else
        match Resolve(choice.policy, FileFacts(|source|, choice.sourceMtime), FileFacts(existing, choice.targetMtime))
        case LeaveAlone => LeaveTarget
        case Write(offset, rename) => WriteFrom(offset, if rename then choice.freshName else job.path)
  }

  /** Where a plan writes, the offset is inside the source and, unless it is zero, at the end
      of the file that is there. */
  ghost predicate PlanFits(source: Bytes, files: map<string, Bytes>, plan: Plan) {
    plan.WriteFrom? ==>
      && plan.offset <= |source|
      && (plan.offset > 0 ==> plan.path in files && plan.offset == |files[plan.path]|)
  }

  lemma PlanAlwaysFits(source: Bytes, job: Job, choice: Choice)
    ensures PlanFits(source, job.files, PlanTransfer(source, job, choice))
  {
  }

  /** The part of the target that a run keeps. */
  function Kept(files: map<string, Bytes>, plan: Plan): Bytes
    requires plan.WriteFrom?
  {
    if plan.offset > 0 && plan.path in files then files[plan.path] else []
  }

  /** All that one run may do, whatever interrupts it: other files stay as they are; either the
      target was not touched yet, or it is what the plan keeps followed by a prefix of what
      the source has from the offset on. `Done` means all of it. */
  ghost predicate RunEffect(source: Bytes, before: Job, plan: Plan, after: Job, r: Result<Outcome, TransferError>) {
    match plan
    case LeaveTarget => after == before && r == Success(Skipped)
    case WriteFrom(offset, path) =>
      && PlanFits(source, before.files, plan)
      && after.path == path
      && after.files - {path} == before.files - {path}
      && r != Success(Skipped)
      && (|| (after.files == before.files && after.transferred == before.transferred && r.Failure?)
          || Written(source, before, plan, after, r))
  }

  ghost predicate Written(source: Bytes, before: Job, plan: Plan, after: Job, r: Result<Outcome, TransferError>)
    requires plan.WriteFrom? && PlanFits(source, before.files, plan)
  {
    var kept := Kept(before.files, plan);
    && plan.path in after.files
    && kept <= after.files[plan.path] <= kept + source[plan.offset..]
    && (r == Success(Done) ==> after.files[plan.path] == kept + source[plan.offset..])
    && (r.Success? ==> after.transferred >= plan.offset)
  }

  lemma OthersKept(files: map<string, Bytes>, path: string, content: Bytes)
    ensures files[path := content] - {path} == files - {path}
  {
  }

  /** A run may fail before it has touched anything. */
  lemma NoEffect(source: Bytes, job: Job, plan: Plan, error: TransferError)
    requires plan.WriteFrom? && PlanFits(source, job.files, plan) && job.path == plan.path
    ensures RunEffect(source, job, plan, job, Failure(error))
  {
  }

  /** The effect of a run whose target holds what was kept and some more of the source. */
  lemma EffectOf(source: Bytes, before: Job, plan: Plan, after: Job, more: Bytes, r: Result<Outcome, TransferError>)
    requires plan.WriteFrom? && PlanFits(source, before.files, plan)
    requires after.path == plan.path && plan.path in after.files
    requires after.files - {plan.path} == before.files - {plan.path}
    requires after.files[plan.path] == Kept(before.files, plan) + more && more <= source[plan.offset..]
    requires r.Success? ==> after.transferred >= plan.offset && r != Success(Skipped)
    requires r == Success(Done) ==> more == source[plan.offset..]
    ensures RunEffect(source, before, plan, after, r) && Written(source, before, plan, after, r)
  {
  }

  /** The whole source is on the target after a run that ended `Done` if and only if what the
      run kept was the beginning of the source. */
  lemma DoneIsExact(source: Bytes, before: Job, plan: Plan, after: Job)
    requires RunEffect(source, before, plan, after, Success(Done))
    ensures plan.WriteFrom? && after.path in after.files
    ensures after.files[after.path] == source <==> Kept(before.files, plan) == source[..plan.offset]
  {
    var kept := Kept(before.files, plan);
    assert source == source[..plan.offset] + source[plan.offset..];
    if kept + source[plan.offset..] == source {
      assert kept == (kept + source[plan.offset..])[..plan.offset];
    }
  }

  lemma DoneHasSize(source: Bytes, before: Job, plan: Plan, after: Job)
    requires RunEffect(source, before, plan, after, Success(Done)) || plan.LeaveTarget?
    ensures plan.WriteFrom? ==> plan.path in after.files && |after.files[plan.path]| == |source|
  {
  }

  /** The one decision that can go wrong is to resume onto a shorter file that this item did
      not write. Then that file must be the beginning of the source. */
  ghost predicate SoundChoice(source: Bytes, original: map<string, Bytes>, job: Job, choice: Choice) {
    choice.policy == Resume && job.path in original && job.path in job.files
    && job.files[job.path] == original[job.path] && |original[job.path]| < |source|
    ==> original[job.path] <= source
  }

  /** What the queue knows of a transfer at some moment: the target and the recorded progress. */
  type Mark = (string, nat)

  /** `marks` are all that was ever known during the run. Any of them may be what is stored when
      the program ends. */
  datatype Run = Run(before: Job, choice: Choice, result: Result<Outcome, TransferError>, after: Job, marks: set<Mark>)

  /** All that became known since then is progress at one target. */
  ghost predicate OnlyAt(path: string, since: set<Mark>, marks: set<Mark>) {
    since <= marks && forall m :: m in marks ==> m in since || m.0 == path
  }

  function MarkOf(job: Job): Mark {
    (job.path, job.transferred)
  }

  /** The marks of a run: the old one, the old progress with the planned target and, once the
      target has been opened, any progress there. */
  ghost predicate MarksFit(source: Bytes, run: Run, plan: Plan) {
    && MarkOf(run.before) in run.marks && MarkOf(run.after) in run.marks
    && forall m :: m in run.marks ==>
         || m == MarkOf(run.before)
         || (&& plan.WriteFrom? && PlanFits(source, run.before.files, plan) && m.0 == plan.path
             && (m.1 == run.before.transferred || Written(source, run.before, plan, run.after, run.result)))
  }

  ghost predicate RunOf(source: Bytes, run: Run) {
    var plan := PlanTransfer(source, run.before, run.choice);
    && MarksFit(source, run, plan)
    && (|| (run.after == run.before && run.result.Failure?)
        || RunEffect(source, run.before, plan, run.after, run.result))
  }

  /** All that was ever known during some runs. */
  function Marks(runs: seq<Run>): set<Mark> {
    if runs == [] then {} else Marks(runs[..|runs| - 1]) + runs[|runs| - 1].marks
  }

  /** A history of an item: every run finds the files as the one before it left them. It starts
      from what is known then or, after a restart of the program, from anything that was known at
      an earlier moment, because progress is not stored as it is made. Pauses and retries lie
      between the runs. Planning itself may fail. */
  ghost predicate History(source: Bytes, runs: seq<Run>) {
    && (forall i :: 0 <= i < |runs| ==> RunOf(source, runs[i]))
    && (forall i :: 0 < i < |runs| ==>
          runs[i].before.files == runs[i - 1].after.files && MarkOf(runs[i].before) in Marks(runs[..i]))
  }

  /** What every run keeps: a file is as it was before the first run or a prefix of the source,
      and a target for which progress was ever known is the latter. */
  ghost predicate Resumable(source: Bytes, original: map<string, Bytes>, files: map<string, Bytes>, marks: set<Mark>) {
    && (forall p :: p in files ==> files[p] <= source || (p in original && files[p] == original[p]))
    && (forall m :: m in marks && m.1 > 0 && m.0 in files ==> files[m.0] <= source)
  }

  /** What a run keeps is the beginning of the source. */
  lemma KeptIsPrefix(source: Bytes, original: map<string, Bytes>, marks: set<Mark>, job: Job, choice: Choice)
    requires MarkOf(job) in marks && Resumable(source, original, job.files, marks)
    requires SoundChoice(source, original, job, choice)
    requires PlanTransfer(source, job, choice).WriteFrom?
    ensures var plan := PlanTransfer(source, job, choice);
            && Kept(job.files, plan) <= source && |Kept(job.files, plan)| == plan.offset
            && (plan.path != job.path ==> job.transferred == 0)
  {
  }

  lemma WrittenIsPrefix(source: Bytes, before: Job, plan: Plan, after: Job, r: Result<Outcome, TransferError>)
    requires plan.WriteFrom? && PlanFits(source, before.files, plan)
    requires Kept(before.files, plan) <= source && |Kept(before.files, plan)| == plan.offset
    requires Written(source, before, plan, after, r)
    ensures after.files[plan.path] <= source
    ensures r == Success(Done) ==> after.files[plan.path] == source
  {
    assert Kept(before.files, plan) + source[plan.offset..] == source;
  }

  lemma OtherFilesStay(before: map<string, Bytes>, after: map<string, Bytes>, path: string)
    requires after - {path} == before - {path}
    ensures forall p :: p in after && p != path ==> p in before && after[p] == before[p]
  {
    forall p | p in after && p != path ensures p in before && after[p] == before[p] {
      assert p in after - {path};
    }
  }

  lemma RunKeepsResumable(source: Bytes, original: map<string, Bytes>, marks: set<Mark>, run: Run)
    requires RunOf(source, run) && MarkOf(run.before) in marks
    requires Resumable(source, original, run.before.files, marks)
    requires SoundChoice(source, original, run.before, run.choice)
    ensures Resumable(source, original, run.after.files, marks + run.marks)
    ensures run.result == Success(Done) ==>
              run.after.path in run.after.files && run.after.files[run.after.path] == source
  {
    hide PlanTransfer, SoundChoice, Kept, Written;
    var plan := PlanTransfer(source, run.before, run.choice);
    if plan.WriteFrom? {
      KeptIsPrefix(source, original, marks, run.before, run.choice);
      if PlanFits(source, run.before.files, plan) && Written(source, run.before, plan, run.after, run.result) {
        WrittenHasFile(source, run.before, plan, run.after, run.result);
        WrittenIsPrefix(source, run.before, plan, run.after, run.result);
      }
      if run.after.files != run.before.files {
        OtherFilesStay(run.before.files, run.after.files, plan.path);
      }
    }
  }

  lemma WrittenHasFile(source: Bytes, before: Job, plan: Plan, after: Job, r: Result<Outcome, TransferError>)
    requires plan.WriteFrom? && PlanFits(source, before.files, plan) && Written(source, before, plan, after, r)
    ensures plan.path in after.files
  {
  }

  /** Resume is sound over whole histories: whatever the runs were cut short by, and whatever was
      forgotten by restarts, a last run that ends `Done` leaves the target equal to the source. */
  lemma {:induction false} HistoryIsSound(source: Bytes, runs: seq<Run>)
    requires runs != [] && History(source, runs)
    requires runs[0].before.transferred == 0
    requires ChoicesAreSound(source, runs)
    ensures var last := runs[|runs| - 1];
            && Resumable(source, runs[0].before.files, last.after.files, Marks(runs))
            && (last.result == Success(Done) ==>
                  last.after.path in last.after.files && last.after.files[last.after.path] == source)
  {
    hide RunOf, Resumable, SoundChoice, History;
    var n, original := |runs| - 1, runs[0].before.files;
    if n == 0 {
      var first := {MarkOf(runs[0].before)};
      HistoryStarts(source, runs);
      assert Marks(runs) == Marks(runs[..0]) + runs[0].marks && runs[..0] == [];
      FreshIsResumable(source, original, first);
      RunKeepsResumable(source, original, first, runs[0]);
      FewerMarks(source, original, runs[0].after.files, first + runs[0].marks, Marks(runs));
    } else {
      HistoryPrefix(source, runs, n);
      HistoryIsSound(source, runs[..n]);
      RunKeepsResumable(source, original, Marks(runs[..n]), runs[n]);
    }
  }

  lemma HistoryPrefix(source: Bytes, runs: seq<Run>, n: nat)
    requires 0 < n < |runs| && History(source, runs)
    ensures History(source, runs[..n]) && RunOf(source, runs[n])
    ensures runs[n].before.files == runs[n - 1].after.files && MarkOf(runs[n].before) in Marks(runs[..n])
  {
    hide RunOf, Marks;
    assert forall i :: 0 <= i < n ==> runs[..n][..i] == runs[..i];
  }

  lemma HistoryStarts(source: Bytes, runs: seq<Run>)
    requires runs != [] && History(source, runs)
    ensures RunOf(source, runs[0])
  {
  }

  ghost predicate ChoicesAreSound(source: Bytes, runs: seq<Run>)
    requires runs != []
  {
    forall i :: 0 <= i < |runs| ==> SoundChoice(source, runs[0].before.files, runs[i].before, runs[i].choice)
  }

  lemma FreshIsResumable(source: Bytes, original: map<string, Bytes>, marks: set<Mark>)
    requires forall m :: m in marks ==> m.1 == 0
    ensures Resumable(source, original, original, marks)
  {
  }

  lemma FewerMarks(source: Bytes, original: map<string, Bytes>, files: map<string, Bytes>, marks: set<Mark>,
                   fewer: set<Mark>)
    requires Resumable(source, original, files, marks) && fewer <= marks
    ensures Resumable(source, original, files, fewer)
  {
  }

  // What is known to be there is kept

  /** Progress is known, the target could be examined, and it is no longer than the source. */
  predicate CanResume(source: Bytes, job: Job, choice: Choice) {
    job.transferred > 0 && choice.statOk && job.path in job.files && |job.files[job.path]| <= |source|
  }

  /** A run that can resume keeps the target and what it holds, however the run ends, and is not
      skipped, whatever the policy. */
  lemma ResumeKeepsProgress(source: Bytes, run: Run)
    requires RunOf(source, run) && CanResume(source, run.before, run.choice)
    ensures run.after.path == run.before.path && run.before.path in run.after.files
    ensures run.before.files[run.before.path] <= run.after.files[run.before.path]
    ensures run.result != Success(Skipped)
  {
  }

  /** It has to be examined for that: if it could not be, the run starts over. So every run that
      may follow keeps what is there, if and only if the target could be examined or is empty. */
  lemma KeepsProgressIffExamined(source: Bytes, job: Job, choice: Choice)
    requires job.transferred > 0 && job.path in job.files && |job.files[job.path]| <= |source|
    ensures (forall run :: RunOf(source, run) && run.before == job && run.choice == choice ==>
               job.path in run.after.files && job.files[job.path] <= run.after.files[job.path]) <==>
            choice.statOk || job.files[job.path] == []
  {
    var path := job.path;
    if choice.statOk {
      forall run | RunOf(source, run) && run.before == job && run.choice == choice
        ensures path in run.after.files && job.files[path] <= run.after.files[path]
      {
        ResumeKeepsProgress(source, run);
      }
    } else if job.files[path] == [] {
      forall run | RunOf(source, run) && run.before == job && run.choice == choice
        ensures path in run.after.files
      {
      }
    } else {
      var after := Job(job.files[path := []], path, job.transferred);
      var run := Run(job, choice, Failure(Remote), after, {MarkOf(job)});
      OthersKept(job.files, path, []);
      EffectOf(source, job, WriteFrom(0, path), after, [], Failure(Remote));
      assert RunOf(source, run);
    }
  }

  /** A run concerns no file but its target, which is the item's own unless it is renamed. */
  lemma OtherFilesUntouched(source: Bytes, run: Run)
    requires RunOf(source, run)
    ensures forall p :: p in run.before.files && p != run.after.path ==>
              p in run.after.files && run.after.files[p] == run.before.files[p]
  {
    forall p | p in run.before.files && p != run.after.path
      ensures p in run.after.files && run.after.files[p] == run.before.files[p]
    {
      if run.after.files - {run.after.path} == run.before.files - {run.after.path} {
        assert p in run.before.files - {run.after.path};
      }
    }
  }

  /** The target changes only to the fresh name, only for a user who chose to rename, and only as long
      as no resumable progress is known. Then the file of that name is left as it is. */
  lemma OnlyRenameMoves(source: Bytes, run: Run)
    requires RunOf(source, run) && run.after.path != run.before.path
    ensures run.choice.policy == Rename && run.after.path == run.choice.freshName
    ensures run.choice.statOk && run.before.path in run.before.files
    ensures !CanResume(source, run.before, run.choice)
    ensures run.before.path in run.after.files
    ensures run.after.files[run.before.path] == run.before.files[run.before.path]
  {
    OtherFilesUntouched(source, run);
  }

  /** And under that policy it does, if the run goes through. */
  lemma RenameMoves(source: Bytes, run: Run)
    requires RunOf(source, run) && run.result.Success? && run.choice.policy == Rename && run.choice.statOk
    requires run.before.path in run.before.files && !CanResume(source, run.before, run.choice)
    ensures run.after.path == run.choice.freshName
  {
  }

  /** Over whole histories: from one run to a later one, as long as each of them starts with known
      progress at the same target and can examine it, the target never gets shorter. */
  lemma {:induction false} ProgressNeverShrinks(source: Bytes, runs: seq<Run>, path: string, i: nat, j: nat)
    requires runs != [] && History(source, runs) && i <= j < |runs|
    requires runs[0].before.transferred == 0
    requires ChoicesAreSound(source, runs)
    requires forall k :: i <= k <= j ==>
               runs[k].before.path == path && runs[k].before.transferred > 0 && runs[k].choice.statOk
    requires path in runs[i].before.files
    ensures path in runs[j].before.files && path in runs[j].after.files
    ensures runs[i].before.files[path] <= runs[j].before.files[path] <= runs[j].after.files[path] <= source
  {
    hide RunOf, Resumable, SoundChoice, CanResume;
    if i < j {
      ProgressNeverShrinks(source, runs, path, i, j - 1);
      assert runs[j].before.files == runs[j - 1].after.files;
    }
    KnownIsPrefix(source, runs, j);
    ResumeKeepsProgress(source, runs[j]);
  }

  /** At the start of a run, a target with known progress holds a prefix of the source, and so it
      does at its end. */
  lemma KnownIsPrefix(source: Bytes, runs: seq<Run>, j: nat)
    requires runs != [] && History(source, runs) && j < |runs|
    requires runs[0].before.transferred == 0
    requires ChoicesAreSound(source, runs)
    requires runs[j].before.transferred > 0 && runs[j].choice.statOk
    ensures RunOf(source, runs[j])
    ensures runs[j].before.path in runs[j].before.files ==> CanResume(source, runs[j].before, runs[j].choice)
    ensures runs[j].before.path in runs[j].after.files ==> runs[j].after.files[runs[j].before.path] <= source
  {
    HistoryUpTo(source, runs, j);
    HistoryIsSound(source, runs[..j]);
    HistoryUpTo(source, runs, j + 1);
    HistoryIsSound(source, runs[..j + 1]);
    hide RunOf, SoundChoice;
    assert runs[..j + 1][..j] == runs[..j];
    assert MarkOf(runs[j].before) in Marks(runs[..j]);
  }

  lemma HistoryUpTo(source: Bytes, runs: seq<Run>, n: nat)
    requires n <= |runs| && History(source, runs)
    ensures History(source, runs[..n])
    ensures 0 < n && ChoicesAreSound(source, runs) ==> ChoicesAreSound(source, runs[..n])
    ensures n < |runs| ==> RunOf(source, runs[n])
  {
    hide RunOf, Marks, SoundChoice;
    assert forall i :: 0 <= i < n ==> runs[..n][..i] == runs[..i];
  }

  // When `Skipped` can be trusted

  predicate SourceIsNewer(choice: Choice) {
    choice.sourceMtime.Some? && (choice.targetMtime.Some? ==> choice.sourceMtime.value > choice.targetMtime.value)
  }

  /** The guard: a target shorter than the source, if it can be examined, is left alone if and only
      if no progress is known and the policy is to skip, or to overwrite only what is older. */
  lemma LeftAloneIff(source: Bytes, job: Job, choice: Choice)
    requires choice.statOk && job.path in job.files && |job.files[job.path]| < |source|
    ensures PlanTransfer(source, job, choice) == LeaveTarget <==>
            job.transferred == 0
            && (choice.policy == Skip || (choice.policy == OverwriteIfNewer && !SourceIsNewer(choice)))
  {
  }

  /** The whole source, or the file that was there before the first run. */
  predicate WholeOrOriginal(source: Bytes, original: map<string, Bytes>, files: map<string, Bytes>, path: string) {
    path in files && (files[path] == source || (path in original && files[path] == original[path]))
  }

  /** Nothing is known of the progress at a target that is neither. */
  predicate PartUnknown(source: Bytes, original: map<string, Bytes>, files: map<string, Bytes>, m: Mark) {
    m.1 == 0 && m.0 in files && !WholeOrOriginal(source, original, files, m.0)
  }

  lemma SkippedMeansUnknown(source: Bytes, original: map<string, Bytes>, marks: set<Mark>, run: Run)
    requires RunOf(source, run) && run.result == Success(Skipped)
    requires Resumable(source, original, run.before.files, marks) && MarkOf(run.before) in marks
    ensures run.after == run.before && run.before.transferred == 0 && run.before.path in run.before.files
  {
  }

  function SkipRun(files: map<string, Bytes>, m: Mark): Run {
    var job := Job(files, m.0, m.1);
    Run(job, Choice(Skip, None, None, true, ""), Success(Skipped), job, {m})
  }

  lemma SkipRunIsRun(source: Bytes, files: map<string, Bytes>, m: Mark)
    requires m.1 == 0 && m.0 in files
    ensures RunOf(source, SkipRun(files, m))
  {
  }

  /** After any history, a further run that ends `Skipped` is certain to end on the whole source or
      on the original file, if and only if none of the targets that a restart could bring back
      without progress holds a part. */
  lemma SkippedIsSafeIff(source: Bytes, runs: seq<Run>)
    requires runs != [] && History(source, runs)
    requires runs[0].before.transferred == 0
    requires ChoicesAreSound(source, runs)
    ensures var original, files := runs[0].before.files, runs[|runs| - 1].after.files;
            (forall next :: History(source, runs + [next]) && next.result == Success(Skipped) ==>
               WholeOrOriginal(source, original, next.after.files, next.after.path)) <==>
            (forall m :: m in Marks(runs) ==> !PartUnknown(source, original, files, m))
  {
    hide RunOf, Resumable;
    var original, files := runs[0].before.files, runs[|runs| - 1].after.files;
    HistoryIsSound(source, runs);
    if forall m :: m in Marks(runs) ==> !PartUnknown(source, original, files, m) {
      forall next | History(source, runs + [next]) && next.result == Success(Skipped)
        ensures WholeOrOriginal(source, original, next.after.files, next.after.path)
      {
        LastFollows(source, runs, next);
        SkippedMeansUnknown(source, original, Marks(runs), next);
      }
    } else {
      var m :| m in Marks(runs) && PartUnknown(source, original, files, m);
      SkipRunIsRun(source, files, m);
      var next := SkipRun(files, m);
      Follows(source, runs, next);
      assert History(source, runs + [next]) && next.result == Success(Skipped);
    }
  }

  lemma LastFollows(source: Bytes, runs: seq<Run>, next: Run)
    requires runs != [] && History(source, runs + [next])
    ensures RunOf(source, next)
    ensures next.before.files == runs[|runs| - 1].after.files && MarkOf(next.before) in Marks(runs)
  {
    var all, n := runs + [next], |runs|;
    assert all[..n] == runs && all[n] == next && all[n - 1] == runs[n - 1];
  }

  lemma Follows(source: Bytes, runs: seq<Run>, next: Run)
    requires runs != [] && History(source, runs) && RunOf(source, next)
    requires next.before.files == runs[|runs| - 1].after.files && MarkOf(next.before) in Marks(runs)
    ensures History(source, runs + [next])
  {
    hide RunOf, Marks;
    var all := runs + [next];
    forall i | 0 < i < |all|
      ensures all[i].before.files == all[i - 1].after.files && MarkOf(all[i].before) in Marks(all[..i])
    {
      assert all[..i] == runs[..i];
      if i == |runs| {
        assert runs[..i] == runs;
      }
    }
  }

  /** The run leaves its target neither whole nor as it was before the first run. */
  predicate LeavesPart(source: Bytes, original: map<string, Bytes>, run: Run) {
    run.after.path in run.after.files && !WholeOrOriginal(source, original, run.after.files, run.after.path)
  }

  /** Without a restart in between: the next run is certain not to end `Skipped` on a part, if and
      only if this one has progress recorded should it leave a part. */
  lemma PartsNeedProgress(source: Bytes, runs: seq<Run>)
    requires runs != [] && History(source, runs)
    requires runs[0].before.transferred == 0
    requires ChoicesAreSound(source, runs)
    ensures var original, last := runs[0].before.files, runs[|runs| - 1];
            (forall next :: RunOf(source, next) && next.before == last.after && next.result == Success(Skipped) ==>
               WholeOrOriginal(source, original, next.after.files, next.after.path)) <==>
            (LeavesPart(source, original, last) ==> last.after.transferred > 0)
  {
    hide RunOf, Resumable;
    var original, last := runs[0].before.files, runs[|runs| - 1];
    HistoryIsSound(source, runs);
    MarkOfLast(source, runs);
    forall next | RunOf(source, next) && next.before == last.after && next.result == Success(Skipped)
      ensures next.after == last.after && last.after.transferred == 0 && last.after.path in last.after.files
    {
      SkippedMeansUnknown(source, original, Marks(runs), next);
    }
    if LeavesPart(source, original, last) && last.after.transferred == 0 {
      var next := SkipRun(last.after.files, MarkOf(last.after));
      SkipRunIsRun(source, last.after.files, MarkOf(last.after));
      assert RunOf(source, next) && next.before == last.after;
    }
  }

  lemma MarkOfLast(source: Bytes, runs: seq<Run>)
    requires runs != [] && History(source, runs)
    ensures MarkOf(runs[|runs| - 1].after) in Marks(runs)
  {
    assert RunOf(source, runs[|runs| - 1]);
  }

  /** Such a part does come about: a run that broke off before its progress was recorded leaves it
      behind, and a retry under the skip policy then takes it for a file of the user's. */
  lemma SkippedCanLeavePart()
    ensures exists source: Bytes, runs: seq<Run> ::
              && |source| == 2 && |runs| == 2 && History(source, runs)
              && runs[0].before == Job(map[], "f", 0)
              && runs[1].result == Success(Skipped)
              && runs[1].after.files == map["f" := source[..1]]
  {
    hide RunOf;
    var source: Bytes := [1, 2];
    var choice := Choice(Skip, None, None, true, "g");
    var before, after := Job(map[], "f", 0), Job(map["f" := source[..1]], "f", 0);
    var first, second := Run(before, choice, Failure(Remote), after, {("f", 0)}), SkipRun(after.files, ("f", 0));
    BreaksOff(source, first, choice);
    SkipRunIsRun(source, after.files, ("f", 0));
    assert History(source, [first]);
    assert [first][..0] == [] && Marks([first]) == {("f", 0)};
    Follows(source, [first], second);
    assert [first] + [second] == [first, second];
  }

  lemma BreaksOff(source: Bytes, run: Run, choice: Choice)
    requires source == [1, 2] && run.before == Job(map[], "f", 0) && run.after == Job(map["f" := source[..1]], "f", 0)
    requires run.choice == choice && run.result == Failure(Remote) && run.marks == {("f", 0)}
    ensures RunOf(source, run)
  {
    var plan := PlanTransfer(source, run.before, choice);
    assert plan == WriteFrom(0, "f");
    assert run.after.files - {"f"} == run.before.files - {"f"};
    EffectOf(source, run.before, plan, run.after, source[..1], Failure(Remote));
  }

  // Verification

  /** What the size check adds when reads may be short: whatever the server answered, and however
      much of it was handed on, the target has the size of the source if and only if it is the
      source. */
  lemma SizeCheckIsExact(source: Bytes, regular: bool, offset: nat, replies: seq<Read.Reply>, out: Bytes, rest: Bytes)
    requires offset <= |source| && Read.ReplyLog(source, regular, offset, replies)
    requires out + rest == Read.Assembled(replies)
    ensures |source[..offset] + out| == |source| <==> source[..offset] + out == source
  {
    Read.PrefixOfLogIsRight(source, regular, offset, replies, out, rest);
    assert source[..offset] + source[offset..] == source;
  }

  /** An item's file transfer, with the files of the target side and its recorded progress.
      The source does not change, READs on it keep the regular-file guarantee, and WRITEs are
      fail-stop. */
  class TransferTask {
    const source: Bytes
    var files: map<string, Bytes>
    var path: string
    var transferred: nat
    ghost var marks: set<Mark>  // all that was ever known of the transfer
    ghost var faulted: bool  // something that the run depends on has gone wrong
    ghost var told: Option<Outcome>  // how the run has been told to stop

    constructor (source: Bytes, files: map<string, Bytes>, path: string)
      ensures this.source == source && State() == Job(files, path, 0)
    {
      this.source, this.files, this.path, this.transferred := source, files, path, 0;
      marks := {(path, 0)};
    }

    function State(): Job
      reads this
    {
      Job(files, path, transferred)
    }

    /** What is known now has been recorded, and since then nothing but progress at this target. */
    ghost predicate Noted(since: set<Mark>)
      reads this`path, this`transferred, this`marks, this`faulted, this`told
    {
      (path, transferred) in marks && OnlyAt(path, since, marks)
    }

    /** `interrupted`: another task may cancel the token at any time, pausing or not. */
    method Interrupted() returns (outcome: Option<Outcome>)
      modifies this`told
      ensures outcome.Some? ==> (outcome.value.Paused? || outcome.value.Cancelled?) && told == outcome
    {
      if * {
        outcome := Some(Paused);
      } else if * {
        outcome := Some(Cancelled);
      } else {
        outcome := None;
      }
      told := outcome;
    }

    /** The reader has met with trouble, or the server has not confirmed the close. */
    method ReadFault(reader: Read.SftpReader) returns (e: TransferError)
      requires reader.channel.events != []
      requires var last := reader.channel.events[|reader.channel.events| - 1];
               Read.IsTrouble(last) || (last.Closed? && last.reply != Read.Status(0))
      modifies this`faulted
      ensures faulted && e == Remote
    {
      faulted := true;
      e := Remote;
    }

    /** The writer has been told of an error. */
    method WriteFault(writer: SftpWrite.SftpWriter) returns (e: TransferError)
      requires writer.channel.errors != []
      modifies this`faulted
      ensures faulted && e == Remote
    {
      faulted := true;
      e := Remote;
    }

    /** `ProgressTracker.advance`: progress reaches the queue only now and then. */
    method Advance(progress: nat)
      requires (path, transferred) in marks
      modifies this`transferred, this`marks
      ensures transferred == old(transferred) || transferred == progress
      ensures Noted(old(marks))
    {
      if * {
        Note(progress);
      }
    }

    /** `record_progress`. */
    method Note(progress: nat)
      modifies this`transferred, this`marks
      ensures transferred == progress && Noted(old(marks))
    {
      transferred := progress;
      marks := marks + {(path, transferred)};
    }

    /** Writes to a local file; a failing write may have stored a part of the data. */
    method WriteLocal(offset: nat, data: Bytes) returns (ok: bool)
      requires path in files && |files[path]| == offset
      modifies this`files, this`faulted
      ensures path in files && files - {path} == old(files) - {path}
      ensures old(files[path]) <= files[path] <= old(files[path]) + data
      ensures ok ==> files[path] == old(files[path]) + data
      ensures !ok ==> faulted
    {
      var stored := data;
      ok := true;
      if * {
        var n: nat :| n <= |data|;
        stored, ok, faulted := data[..n], false, true;
      }
      SftpWrite.Appends(files[path], stored);
      files := files[path := SftpWrite.WriteAt(files[path], offset, stored)];
    }

    /** While downloading, the target is what was kept followed by what the reader delivered. */
    ghost predicate Receiving(reader: Read.SftpReader, others: map<string, Bytes>, kept: Bytes, progress: nat)
      reads this, reader, reader.channel
    {
      && reader.Valid() && reader.channel.file == source && reader.channel.regular
      && reader.start <= |source| && |kept| == reader.start
      && path in files && files - {path} == others
      && files[path] == kept + reader.delivered
      && reader.delivered <= source[reader.start..]
      && progress == reader.start + |reader.delivered|
    }

    /** One round of the loop in `download`: `None` means to go on. */
    method ReceiveSome(reader: Read.SftpReader, progress: nat, ghost others: map<string, Bytes>, ghost kept: Bytes)
      returns (r: Result<Option<Outcome>, TransferError>, progress': nat)
      requires Receiving(reader, others, kept, progress)
      requires (path, transferred) in marks
      modifies this`files, this`transferred, this`marks, this`faulted, this`told, reader, reader.channel
      ensures Noted(old(marks))
      ensures r.Failure? ==> faulted
      ensures r.Success? && r.value.Some? && r.value.value != Done ==> told == r.value
      ensures r.Success? ==> Receiving(reader, others, kept, progress')
      ensures r == Success(None) ==> progress' > progress
      ensures r.Success? && r.value.Some? ==> progress' == progress && !r.value.value.Skipped?
      ensures r == Success(Some(Done)) ==> reader.delivered == source[reader.start..]
      ensures r.Failure? ==>
                && path in files && files - {path} == others
                && kept <= files[path] <= kept + source[reader.start..]
    {
      hide Read.InStep, SftpWrite.WriteAt;
      progress' := progress;
      var interrupt := Interrupted();
      if interrupt.Some? {
        return Success(interrupt), progress;
      }
      var read := reader.Read(BUFFER_SIZE);
      if read.Failure? {
        var e := ReadFault(reader);
        return Failure(e), progress;
      }
      if read.value == [] {
        return Success(Some(Done)), progress;
      }
      assert kept + reader.delivered == kept + old(reader.delivered) + read.value;
      assert kept + reader.delivered <= kept + source[reader.start..];
      var ok := WriteLocal(progress, read.value);
      if !ok {
        return Failure(Io), progress;
      }
      progress' := progress + |read.value|;
      Advance(progress');
      r := Success(None);
    }

    /** The loop of `download`. */
    method ReceiveAll(reader: Read.SftpReader, ghost others: map<string, Bytes>, ghost kept: Bytes)
      returns (r: Result<Outcome, TransferError>, progress: nat)
      requires Receiving(reader, others, kept, reader.start)
      requires (path, transferred) in marks
      modifies this`files, this`transferred, this`marks, this`faulted, this`told, reader, reader.channel
      ensures Noted(old(marks))
      ensures r.Failure? ==> faulted
      ensures r.Success? && r.value != Done ==> told == Some(r.value)
      ensures r.Success? ==> Receiving(reader, others, kept, progress) && !r.value.Skipped?
      ensures r == Success(Done) ==> reader.delivered == source[reader.start..]
      ensures r.Failure? ==>
                && path in files && files - {path} == others
                && kept <= files[path] <= kept + source[reader.start..]
    {
      hide Read.SftpReader.Wire, Read.SftpReader.Stream;
      progress := reader.start;
      var outcome: Option<Outcome> := None;
      while outcome.None?
        invariant Receiving(reader, others, kept, progress)
        invariant Noted(old(marks))
        invariant outcome.Some? && outcome != Some(Done) ==> told == outcome
        invariant outcome.Some? ==> !outcome.value.Skipped?
        invariant outcome == Some(Done) ==> reader.delivered == source[reader.start..]
        decreases outcome.None?, |source| - progress
      {
        var round;
        round, progress := ReceiveSome(reader, progress, others, kept);
        if round.Failure? {
          return Failure(round.error), progress;
        }
        outcome := round.value;
      }
      r := Success(outcome.value);
    }

    /** Opens the target where a run starts to write: truncated if that is its beginning, and cut
        there otherwise. */
    method OpenTarget(offset: nat) returns (kept: Bytes)
      requires PlanFits(source, files, WriteFrom(offset, path))
      modifies this`files
      ensures path in files && files[path] == kept == Kept(old(files), WriteFrom(offset, path))
      ensures |kept| == offset <= |source|
      ensures files - {path} == old(files) - {path}
    {
      kept := if offset == 0 then [] else files[path][..offset];
      OthersKept(files, path, kept);
      files := files[path := kept];
    }

    method Download(offset: nat) returns (r: Result<Outcome, TransferError>)
      requires PlanFits(source, files, WriteFrom(offset, path))
      requires (path, transferred) in marks
      modifies this`files, this`transferred, this`marks, this`faulted, this`told
      ensures Noted(old(marks))
      ensures r.Failure? ==> faulted
      ensures r.Success? && r.value != Done ==> told == Some(r.value)
      ensures RunEffect(source, old(State()), WriteFrom(offset, path), State(), r)
      ensures marks == old(marks) || Written(source, old(State()), WriteFrom(offset, path), State(), r)
    {
      hide RunEffect, Written, Kept, Read.SftpReader.Wire, Read.SftpReader.Stream;
      ghost var before, plan := State(), WriteFrom(offset, path);
      if * {
        NoEffect(source, before, plan, Io);
        faulted := true;
        return Failure(Io);
      }
      ghost var kept := OpenTarget(offset);
      ghost var others := files - {path};
      if * {
        EffectOf(source, before, plan, State(), [], Failure(Remote));
        faulted := true;
        return Failure(Remote);
      }
      var channel := new Read.ReadChannel(source, true);
      var reader := new Read.SftpReader(channel, offset);
      assert kept + [] == kept;
      var received, progress := ReceiveAll(reader, others, kept);
      r := EndDownload(reader, received, progress, before, plan);
    }

    /** The end of `download`: the file is flushed and the reader finished. */
    method EndDownload(reader: Read.SftpReader, received: Result<Outcome, TransferError>, progress: nat,
                       ghost before: Job, ghost plan: Plan)
      returns (r: Result<Outcome, TransferError>)
      requires plan == WriteFrom(reader.start, path) && PlanFits(source, before.files, plan)
      requires path in files && files - {path} == before.files - {path}
      requires |Kept(before.files, plan)| == reader.start
      requires Kept(before.files, plan) <= files[path] <= Kept(before.files, plan) + source[reader.start..]
      requires received.Success? ==>
                 && reader.Valid() && progress >= reader.start && !received.value.Skipped?
                 && files[path] == Kept(before.files, plan) + reader.delivered
      requires received == Success(Done) ==> reader.delivered == source[reader.start..]
      requires received.Failure? ==> faulted
      requires received.Success? && received.value != Done ==> told == Some(received.value)
      requires (path, transferred) in marks
      modifies this`transferred, this`marks, this`faulted, this`told, reader, reader.channel
      ensures Noted(old(marks))
      ensures r.Failure? ==> faulted
      ensures r.Success? && r.value != Done ==> told == Some(r.value)
      ensures RunEffect(source, before, plan, State(), r) && Written(source, before, plan, State(), r)
    {
      hide RunEffect, Written, Kept, Read.SftpReader.Wire, Read.SftpReader.Stream;
      ghost var more := files[path][reader.start..];
      if received.Failure? {
        EffectOf(source, before, plan, State(), more, Failure(received.error));
        return Failure(received.error);
      }
      if * {
        faulted := true;
        EffectOf(source, before, plan, State(), more, Failure(Io));
        return Failure(Io);
      }
      var finish := reader.Finish();
      if finish.Failure? {
        var _ := ReadFault(reader);
      }
      Note(progress);
      r := if received == Success(Done) && finish.Failure? then Failure(Remote) else received;
      EffectOf(source, before, plan, State(), more, r);
    }

    /** While uploading, the requests carry the source from the offset on. */
    ghost predicate Sending(writer: SftpWrite.SftpWriter, kept: Bytes, progress: nat)
      reads writer, writer.channel
    {
      && writer.Valid() && writer.channel.failStop && writer.channel.base == kept
      && writer.start == |kept| <= progress <= |source|
      && writer.accepted == source[writer.start..progress]
    }

    /** What is left of the writer's file on the server once the run is over. */
    method Land(writer: SftpWrite.SftpWriter)
      requires writer.Wire() && writer.channel.failStop && |writer.channel.base| == writer.start
      modifies this`files, writer.channel`remote, writer.channel`effects
      ensures path in files && files - {path} == old(files) - {path}
      ensures writer.channel.base <= files[path] <= writer.channel.base + writer.accepted
      ensures old(writer.channel.remote == writer.channel.base + writer.accepted
                  && |writer.channel.effects| == |writer.channel.sent|) ==>
                files[path] == writer.channel.base + writer.accepted
    {
      hide SftpWrite.Replay, SftpWrite.Contiguous, SftpWrite.Carried, SftpWrite.FailStop;
      writer.channel.Settle();
      writer.RemoteIsPrefix();
      files := files[path := writer.channel.remote];
    }

    /** `writer.finish()`, and what the server has then. */
    method FinishWriter(writer: SftpWrite.SftpWriter) returns (ok: bool)
      requires writer.Wire() && writer.channel.failStop && |writer.channel.base| == writer.start
      modifies this`files, this`faulted, writer`inFlight
      modifies writer.channel`remote, writer.channel`effects, writer.channel`errors
      ensures path in files && files - {path} == old(files) - {path}
      ensures writer.channel.base <= files[path] <= writer.channel.base + writer.accepted
      ensures ok && old(writer.Valid()) ==> files[path] == writer.channel.base + writer.accepted
      ensures !ok ==> faulted
    {
      hide SftpWrite.Replay, SftpWrite.Contiguous, SftpWrite.Carried, SftpWrite.FailStop;
      var finish := writer.Finish();
      Land(writer);
      ok := finish.Success?;
      if !ok {
        var _ := WriteFault(writer);
      }
    }

    /** Reads from a local file: some bytes, none only at its end. */
    method ReadLocal(position: nat) returns (r: Result<Bytes, TransferError>)
      requires position <= |source|
      modifies this`faulted
      ensures r.Failure? ==> faulted
      ensures r.Success? ==> r.value <= source[position..] && |r.value| <= BUFFER_SIZE
      ensures r == Success([]) <==> r.Success? && position == |source|
    {
      if * {
        faulted := true;
        return Failure(Io);
      }
      if position == |source| {
        return Success([]);
      }
      var n: nat :| 0 < n <= BUFFER_SIZE && position + n <= |source|;
      r := Success(source[position..position + n]);
    }

    /** One round of the loop in `upload`: `None` means to go on. */
    method SendSome(writer: SftpWrite.SftpWriter, progress: nat, ghost kept: Bytes)
      returns (r: Result<Option<Outcome>, TransferError>, progress': nat)
      requires Sending(writer, kept, progress)
      requires (path, transferred) in marks
      modifies this`transferred, this`marks, this`faulted, this`told
      modifies writer, writer.channel`sent, writer.channel`remote, writer.channel`effects, writer.channel`errors
      ensures Noted(old(marks))
      ensures r.Failure? ==> faulted
      ensures r.Success? && r.value.Some? && r.value.value != Done ==> told == r.value
      ensures writer.Wire() && writer.accepted <= source[writer.start..]
      ensures r.Success? ==> Sending(writer, kept, progress')
      ensures r == Success(None) ==> progress' > progress
      ensures r.Success? && r.value.Some? ==> progress' == progress && !r.value.value.Skipped?
      ensures r == Success(Some(Done)) ==> progress == |source|
    {
      hide SftpWrite.Replay, SftpWrite.Contiguous, SftpWrite.Carried, SftpWrite.FailStop;
      progress' := progress;
      var interrupt := Interrupted();
      if interrupt.Some? {
        return Success(interrupt), progress;
      }
      var read := ReadLocal(progress);
      if read.Failure? {
        return Failure(read.error), progress;
      }
      if read.value == [] {
        return Success(Some(Done)), progress;
      }
      r, progress' := WriteSome(writer, progress, read.value, kept);
    }

    /** Hands a piece of the source to the writer and records progress. */
    method WriteSome(writer: SftpWrite.SftpWriter, progress: nat, piece: Bytes, ghost kept: Bytes)
      returns (r: Result<Option<Outcome>, TransferError>, progress': nat)
      requires Sending(writer, kept, progress)
      requires 0 < |piece| && piece <= source[progress..]
      requires (path, transferred) in marks
      modifies this`transferred, this`marks, this`faulted, this`told
      modifies writer, writer.channel`sent, writer.channel`remote, writer.channel`effects, writer.channel`errors
      ensures Noted(old(marks))
      ensures r.Failure? ==> faulted
      ensures r.Success? && r.value.Some? && r.value.value != Done ==> told == r.value
      ensures writer.Wire() && writer.accepted <= source[writer.start..]
      ensures r.Success? ==> r.value.None? && progress' == progress + |piece| && Sending(writer, kept, progress')
    {
      hide SftpWrite.Replay, SftpWrite.Contiguous, SftpWrite.Carried, SftpWrite.FailStop;
      progress' := progress + |piece|;
      assert source[writer.start..progress] + piece == source[writer.start..progress'];
      assert source[writer.start..progress'] <= source[writer.start..];
      var written := writer.Write(piece);
      if written.Failure? {
        var e := WriteFault(writer);
        return Failure(e), progress;
      }
      Advance(progress');
      r := Success(None);
    }

    /** The loop of `upload`. */
    method SendAll(writer: SftpWrite.SftpWriter, ghost kept: Bytes)
      returns (r: Result<Outcome, TransferError>, progress: nat)
      requires Sending(writer, kept, writer.start)
      requires (path, transferred) in marks
      modifies this`transferred, this`marks, this`faulted, this`told
      modifies writer, writer.channel`sent, writer.channel`remote, writer.channel`effects, writer.channel`errors
      ensures Noted(old(marks))
      ensures r.Failure? ==> faulted
      ensures r.Success? && r.value != Done ==> told == Some(r.value)
      ensures writer.Wire() && writer.accepted <= source[writer.start..]
      ensures r.Success? ==> Sending(writer, kept, progress) && !r.value.Skipped?
      ensures r == Success(Done) ==> progress == |source|
    {
      hide SftpWrite.Replay, SftpWrite.SftpWriter.Wire, SftpWrite.WriteChannel.Valid;
      progress := writer.start;
      var outcome: Option<Outcome> := None;
      while outcome.None?
        invariant Sending(writer, kept, progress)
        invariant Noted(old(marks))
        invariant outcome.Some? && outcome != Some(Done) ==> told == outcome
        invariant outcome.Some? ==> !outcome.value.Skipped?
        invariant outcome == Some(Done) ==> progress == |source|
        decreases outcome.None?, |source| - progress
      {
        var round;
        round, progress := SendSome(writer, progress, kept);
        if round.Failure? {
          return Failure(round.error), progress;
        }
        outcome := round.value;
      }
      assert source[writer.start..progress] <= source[writer.start..];
      r := Success(outcome.value);
    }

    method Upload(offset: nat) returns (r: Result<Outcome, TransferError>)
      requires PlanFits(source, files, WriteFrom(offset, path))
      requires (path, transferred) in marks
      modifies this`files, this`transferred, this`marks, this`faulted, this`told
      ensures Noted(old(marks))
      ensures r.Failure? ==> faulted
      ensures r.Success? && r.value != Done ==> told == Some(r.value)
      ensures RunEffect(source, old(State()), WriteFrom(offset, path), State(), r)
      ensures marks == old(marks) || Written(source, old(State()), WriteFrom(offset, path), State(), r)
    {
      hide RunEffect, Written, Kept, SftpWrite.Replay, SftpWrite.SftpWriter.Wire, SftpWrite.WriteChannel.Valid;
      ghost var before, plan := State(), WriteFrom(offset, path);
      if * {
        NoEffect(source, before, plan, Io);
        faulted := true;
        return Failure(Io);
      }
      var kept := OpenTarget(offset);
      if * {
        EffectOf(source, before, plan, State(), [], Failure(Remote));
        faulted := true;
        return Failure(Remote);
      }
      ghost var others := files - {path};
      var channel := new SftpWrite.WriteChannel(kept, true);
      var writer := new SftpWrite.SftpWriter(channel, offset);
      assert source[offset..offset] == [];
      var sent, progress := SendAll(writer, kept);
      r := EndUpload(writer, sent, progress, before, plan);
    }

    /** The end of `upload`, with what is on the server then. */
    method EndUpload(writer: SftpWrite.SftpWriter, sent: Result<Outcome, TransferError>, progress: nat,
                     ghost before: Job, ghost plan: Plan)
      returns (r: Result<Outcome, TransferError>)
      requires plan == WriteFrom(writer.start, path) && PlanFits(source, before.files, plan)
      requires files - {path} == before.files - {path}
      requires writer.channel.failStop && writer.channel.base == Kept(before.files, plan)
      requires |writer.channel.base| == writer.start
      requires writer.Wire() && writer.accepted <= source[writer.start..]
      requires sent.Success? ==>
                 && writer.Valid() && writer.start <= progress <= |source| && !sent.value.Skipped?
                 && writer.accepted == source[writer.start..progress]
      requires sent == Success(Done) ==> progress == |source|
      requires sent.Failure? ==> faulted
      requires sent.Success? && sent.value != Done ==> told == Some(sent.value)
      requires (path, transferred) in marks
      modifies this`files, this`transferred, this`marks, this`faulted, this`told
      modifies writer`inFlight, writer.channel`remote, writer.channel`effects, writer.channel`errors
      ensures Noted(old(marks))
      ensures r.Failure? ==> faulted
      ensures r.Success? && r.value != Done ==> told == Some(r.value)
      ensures RunEffect(source, before, plan, State(), r) && Written(source, before, plan, State(), r)
    {
      hide RunEffect, Written, Kept, SftpWrite.Replay, SftpWrite.SftpWriter.Wire, SftpWrite.WriteChannel.Valid;
      if sent.Failure? {
        Land(writer);
        SentEffect(source, before, plan, State(), writer.accepted, Failure(sent.error));
        return Failure(sent.error);
      }
      var finished := FinishWriter(writer);
      Note(progress);
      r := if sent == Success(Done) && !finished then Failure(Remote) else sent;
      SentEffect(source, before, plan, State(), writer.accepted, r);
    }

    /** One round of the loop in `copy_remote_file`. */
    method CopySome(reader: Read.SftpReader, writer: SftpWrite.SftpWriter, progress: nat, ghost kept: Bytes)
      returns (r: Result<Option<Outcome>, TransferError>, progress': nat)
      requires Sending(writer, kept, progress) && Fetching(reader, progress) && writer.start == reader.start
      requires (path, transferred) in marks
      modifies this`transferred, this`marks, this`faulted, this`told, reader, reader.channel
      modifies writer, writer.channel`sent, writer.channel`remote, writer.channel`effects, writer.channel`errors
      ensures Noted(old(marks))
      ensures r.Failure? ==> faulted
      ensures r.Success? && r.value.Some? && r.value.value != Done ==> told == r.value
      ensures writer.Wire() && writer.accepted <= source[writer.start..]
      ensures r.Success? ==> Sending(writer, kept, progress') && Fetching(reader, progress')
      ensures r == Success(None) ==> progress' > progress
      ensures r.Success? && r.value.Some? ==> progress' == progress && !r.value.value.Skipped?
      ensures r == Success(Some(Done)) ==> progress == |source|
    {
      hide SftpWrite.Replay, SftpWrite.Contiguous, SftpWrite.Carried, SftpWrite.FailStop;
      hide Read.SftpReader.Wire, Read.SftpReader.Stream;
      progress' := progress;
      var interrupt := Interrupted();
      if interrupt.Some? {
        return Success(interrupt), progress;
      }
      var read := reader.Read(BUFFER_SIZE);
      if read.Failure? {
        var e := ReadFault(reader);
        return Failure(e), progress;
      }
      if read.value == [] {
        return Success(Some(Done)), progress;
      }
      assert read.value <= source[progress..] by {
        assert reader.delivered[|old(reader.delivered)|..] == read.value;
        assert source[reader.start..][|old(reader.delivered)|..] == source[progress..];
      }
      r, progress' := WriteSome(writer, progress, read.value, kept);
    }

    ghost predicate Fetching(reader: Read.SftpReader, progress: nat)
      reads reader, reader.channel
    {
      && reader.Valid() && reader.channel.file == source && reader.channel.regular
      && reader.start <= |source|
      && reader.delivered <= source[reader.start..]
      && progress == reader.start + |reader.delivered|
    }

    /** The loop of `copy_remote_file`. */
    method CopyLoop(reader: Read.SftpReader, writer: SftpWrite.SftpWriter, ghost kept: Bytes)
      returns (r: Result<Outcome, TransferError>, progress: nat)
      requires Sending(writer, kept, reader.start) && Fetching(reader, reader.start) && writer.start == reader.start
      requires (path, transferred) in marks
      modifies this`transferred, this`marks, this`faulted, this`told, reader, reader.channel
      modifies writer, writer.channel`sent, writer.channel`remote, writer.channel`effects, writer.channel`errors
      ensures Noted(old(marks))
      ensures r.Failure? ==> faulted
      ensures r.Success? && r.value != Done ==> told == Some(r.value)
      ensures writer.Wire() && writer.accepted <= source[writer.start..]
      ensures r.Success? ==> Sending(writer, kept, progress) && Fetching(reader, progress) && !r.value.Skipped?
      ensures r == Success(Done) ==> progress == |source|
    {
      hide SftpWrite.Replay, SftpWrite.SftpWriter.Wire, SftpWrite.WriteChannel.Valid;
      hide Read.SftpReader.Wire, Read.SftpReader.Stream;
      progress := reader.start;
      var outcome: Option<Outcome> := None;
      while outcome.None?
        invariant Sending(writer, kept, progress) && Fetching(reader, progress)
        invariant Noted(old(marks))
        invariant outcome.Some? && outcome != Some(Done) ==> told == outcome
        invariant outcome.Some? ==> !outcome.value.Skipped?
        invariant outcome == Some(Done) ==> progress == |source|
        decreases outcome.None?, |source| - progress
      {
        var round;
        round, progress := CopySome(reader, writer, progress, kept);
        if round.Failure? {
          return Failure(round.error), progress;
        }
        outcome := round.value;
      }
      assert source[writer.start..progress] <= source[writer.start..];
      r := Success(outcome.value);
    }

    method CopyRemote(offset: nat) returns (r: Result<Outcome, TransferError>)
      requires PlanFits(source, files, WriteFrom(offset, path))
      requires (path, transferred) in marks
      modifies this`files, this`transferred, this`marks, this`faulted, this`told
      ensures Noted(old(marks))
      ensures r.Failure? ==> faulted
      ensures r.Success? && r.value != Done ==> told == Some(r.value)
      ensures RunEffect(source, old(State()), WriteFrom(offset, path), State(), r)
      ensures marks == old(marks) || Written(source, old(State()), WriteFrom(offset, path), State(), r)
    {
      hide RunEffect, Written, Kept, SftpWrite.Replay, SftpWrite.SftpWriter.Wire, SftpWrite.WriteChannel.Valid;
      hide Read.SftpReader.Wire, Read.SftpReader.Stream;
      ghost var before, plan := State(), WriteFrom(offset, path);
      if * {
        NoEffect(source, before, plan, Remote);
        faulted := true;
        return Failure(Remote);
      }
      var sourceChannel := new Read.ReadChannel(source, true);
      var reader := new Read.SftpReader(sourceChannel, offset);
      var kept := OpenTarget(offset);
      if * {
        EffectOf(source, before, plan, State(), [], Failure(Remote));
        faulted := true;
        return Failure(Remote);
      }
      var targetChannel := new SftpWrite.WriteChannel(kept, true);
      var writer := new SftpWrite.SftpWriter(targetChannel, offset);
      assert source[offset..offset] == [];
      var copied, progress := CopyLoop(reader, writer, kept);
      r := EndCopy(reader, writer, copied, progress, before, plan);
    }

    /** The end of `copy_remote_file`, with what is on the server then. */
    method EndCopy(reader: Read.SftpReader, writer: SftpWrite.SftpWriter, copied: Result<Outcome, TransferError>,
                   progress: nat, ghost before: Job, ghost plan: Plan)
      returns (r: Result<Outcome, TransferError>)
      requires plan == WriteFrom(writer.start, path) && PlanFits(source, before.files, plan)
      requires files - {path} == before.files - {path}
      requires writer.channel.failStop && writer.channel.base == Kept(before.files, plan)
      requires |writer.channel.base| == writer.start
      requires writer.Wire() && writer.accepted <= source[writer.start..]
      requires copied.Success? ==>
                 && writer.Valid() && reader.Valid() && writer.start <= progress <= |source| && !copied.value.Skipped?
                 && writer.accepted == source[writer.start..progress]
      requires copied == Success(Done) ==> progress == |source|
      requires copied.Failure? ==> faulted
      requires copied.Success? && copied.value != Done ==> told == Some(copied.value)
      requires (path, transferred) in marks
      modifies this`files, this`transferred, this`marks, this`faulted, this`told, reader, reader.channel
      modifies writer`inFlight, writer.channel`remote, writer.channel`effects, writer.channel`errors
      ensures Noted(old(marks))
      ensures r.Failure? ==> faulted
      ensures r.Success? && r.value != Done ==> told == Some(r.value)
      ensures RunEffect(source, before, plan, State(), r) && Written(source, before, plan, State(), r)
    {
      hide RunEffect, Written, Kept, SftpWrite.Replay, SftpWrite.SftpWriter.Wire, SftpWrite.WriteChannel.Valid;
      hide Read.SftpReader.Wire, Read.SftpReader.Stream;
      if copied.Failure? {
        Land(writer);
        SentEffect(source, before, plan, State(), writer.accepted, Failure(copied.error));
        return Failure(copied.error);
      }
      var finished := FinishWriter(writer);
      var finishedReader := reader.Finish();
      if finishedReader.Failure? {
        var _ := ReadFault(reader);
      }
      Note(progress);
      r := if copied == Success(Done) && (finishedReader.Failure? || !finished) then Failure(Remote) else copied;
      SentEffect(source, before, plan, State(), writer.accepted, r);
    }

    /** `verify`: the size on the target side must be that of the source. */
    method Verify() returns (ok: bool)
      requires path in files
      modifies this`faulted
      ensures ok ==> |files[path]| == |source|
      ensures !ok ==> faulted || |files[path]| != |source|
    {
      ok := |files[path]| == |source|;
      if * {
        ok, faulted := false, true;
      }
    }

    /** One run of a file item. If nothing goes wrong and nobody stops it, it ends `Done`, or
        `Skipped` if that was the plan. */
    method TransferFile(direction: Direction, choice: Choice) returns (r: Result<Outcome, TransferError>)
      modifies this
      ensures RunOf(source, Run(old(State()), choice, r, State(), marks))
      ensures r.Failure? ==> faulted
      ensures r.Success? && r.value != Done && r.value != Skipped ==> told == Some(r.value)
    {
      hide Resolve, Kept, PlanTransfer;
      ghost var before := State();
      marks, faulted, told := {(path, transferred)}, false, None;
      assert State() == before;
      if * {
        faulted := true;
        NotRun(source, Run(before, choice, Failure(PromptFailed), before, marks));
        return Failure(PromptFailed);
      }
      var plan := PlanTransfer(source, State(), choice);
      PlanAlwaysFits(source, before, choice);
      if plan.LeaveTarget? {
        LeftAlone(source, Run(before, choice, Success(Skipped), before, marks));
        return Success(Skipped);
      }
      path := plan.path;
      marks := marks + {(path, transferred)};
      OtherPathFits(source, before, plan);
      ghost var planned, known := State(), marks;
      assert planned == Job(before.files, plan.path, before.transferred);
      match direction
      case Download => r := Download(plan.offset);
      case Upload => r := Upload(plan.offset);
      case Copy => r := CopyRemote(plan.offset);
      if r == Success(Done) {
        DoneHasSize(source, planned, plan, State());
        var ok := Verify();
        if !ok {
          DoneMayFail(source, planned, plan, State(), SizeMismatch);
          r := Failure(SizeMismatch);
        }
      }
      RunsAsPlanned(source, Run(before, choice, r, State(), marks), plan, known);
    }
  }

  lemma OtherPathFits(source: Bytes, before: Job, plan: Plan)
    requires plan.WriteFrom? && PlanFits(source, before.files, plan)
    ensures PlanFits(source, before.files, WriteFrom(plan.offset, plan.path))
  {
  }

  /** The check at the end may turn success into failure. */
  lemma DoneMayFail(source: Bytes, before: Job, plan: Plan, after: Job, error: TransferError)
    requires plan.WriteFrom? && PlanFits(source, before.files, plan)
    requires RunEffect(source, before, plan, after, Success(Done))
    ensures RunEffect(source, before, plan, after, Failure(error))
    ensures Written(source, before, plan, after, Success(Done)) ==>
              Written(source, before, plan, after, Failure(error))
  {
  }

  lemma NotRun(source: Bytes, run: Run)
    requires run.after == run.before && run.result.Failure? && run.marks == {MarkOf(run.before)}
    ensures RunOf(source, run)
  {
  }

  lemma LeftAlone(source: Bytes, run: Run)
    requires PlanTransfer(source, run.before, run.choice) == LeaveTarget
    requires run.after == run.before && run.result == Success(Skipped) && run.marks == {MarkOf(run.before)}
    ensures RunOf(source, run)
  {
  }

  /** What was planned with the old state was done with the planned target. */
  lemma RunsAsPlanned(source: Bytes, run: Run, plan: Plan, known: set<Mark>)
    requires plan == PlanTransfer(source, run.before, run.choice) && plan.WriteFrom?
    requires PlanFits(source, run.before.files, plan)
    requires known == {MarkOf(run.before), (plan.path, run.before.transferred)}
    requires MarkOf(run.after) in run.marks && OnlyAt(plan.path, known, run.marks)
    requires var planned := Job(run.before.files, plan.path, run.before.transferred);
             && RunEffect(source, planned, plan, run.after, run.result)
             && (run.marks == known || Written(source, planned, plan, run.after, run.result))
    ensures RunOf(source, run)
  {
    hide PlanTransfer, PlanFits, Kept;
  }

  datatype Direction = Download | Upload | Copy

  /** The effect of a run whose target holds what was kept and a part of what was accepted. */
  lemma SentEffect(source: Bytes, before: Job, plan: Plan, after: Job, accepted: Bytes,
                   r: Result<Outcome, TransferError>)
    requires plan.WriteFrom? && PlanFits(source, before.files, plan)
    requires after.path == plan.path && plan.path in after.files
    requires after.files - {plan.path} == before.files - {plan.path}
    requires var kept := Kept(before.files, plan);
             && kept <= after.files[plan.path] <= kept + accepted
             && (r == Success(Done) ==> after.files[plan.path] == kept + accepted)
    requires accepted <= source[plan.offset..]
    requires r.Success? ==> after.transferred >= plan.offset && r != Success(Skipped)
    requires r == Success(Done) ==> accepted == source[plan.offset..]
    ensures RunEffect(source, before, plan, after, r) && Written(source, before, plan, after, r)
  {
    hide RunEffect, Written;
    var kept, file := Kept(before.files, plan), after.files[plan.path];
    var more := file[|kept|..];
    assert kept + accepted <= kept + source[plan.offset..];
    assert more == (kept + source[plan.offset..])[|kept|..|file|];
    EffectOf(source, before, plan, after, more, r);
  }
}
