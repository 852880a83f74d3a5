/** How the runs of workers begin and end, src-tauri/src/transfer/worker.rs: what becomes of an item
    that is still in the list. */
module WorkerOutcomes {
  import opened Wrappers
  import opened TransferItems
  import opened QueueState
  import opened QueueLifecycle
  import QueueEffects

  /** Only an item that is bound to a connected session gets past the first look; any other fails. */
  lemma BeginNeedsSession(s: System, step: Step)
    requires Inv(s) && Enabled(s, step) && step.Begin? && Contains(s.q.items, step.id)
    ensures var s', item := Next(s, step), TransferItems.Get(s.q.items, step.id);
            if step.connected && item.sessionId.Some?
            then s'.q == s.q && step.id in s'.workers && s'.workers[step.id] == Running(item)
            else step.id !in s'.workers && Contains(s'.q.items, step.id)
                 && TransferItems.Get(s'.q.items, step.id).status == Failed
  {
    QueueEffects.FailedStays(s.q, step.id, Some("session is not connected"), step.now, step.historyCap);
  }

  /** A run that ends well takes the item to the history, as done or as skipped. */
  lemma FinishGoesToHistory(s: System, step: Step)
    requires Inv(s) && Enabled(s, step) && step.Finish? && Contains(s.q.items, step.id)
    ensures var s' := Next(s, step);
            && !Contains(s'.q.items, step.id) && step.id !in s'.workers
            && s'.q.history != [] && s'.q.history[0].id == step.id
            && s'.q.history[0].status == if step.skipped then Skipped else Done
  {
    QueueEffects.DoneGoesToHistory(s.q, step.id, if step.skipped then Skipped else Done, None, step.now,
                                   step.historyCap);
  }

  /** A run that was told to stop leaves the item paused. Had it been told to stop for good, the item
      would not be in the list any more. */
  lemma StopPauses(s: System, step: Step)
    requires Inv(s) && Enabled(s, step) && step.Stop? && Contains(s.q.items, step.id)
    ensures var s' := Next(s, step);
            && step.id !in s'.workers && Contains(s'.q.items, step.id)
            && TransferItems.Get(s'.q.items, step.id).status == Paused
  {
    ItemOfWorker(s, step.id);
    QueueEffects.UpdateConcerns(s.q.items, step.id, Halted());
  }

  /** A failed run counts once. */
  lemma FailCounts(s: System, step: Step)
    requires Inv(s) && Enabled(s, step) && step.Fail? && Contains(s.q.items, step.id)
    ensures var s' := Next(s, step);
            && Contains(s'.q.items, step.id)
            && TransferItems.Get(s'.q.items, step.id).attempts == TransferItems.Get(s.q.items, step.id).attempts + 1
  {
    ItemOfWorker(s, step.id);
    QueueEffects.UpdateConcerns(s.q.items, step.id, Attempted(s.workers[step.id].snapshot.attempts + 1));
  }

  /** If it is retried, the item is due again at its time, with the error to be read. */
  lemma RetryIsDueLater(s: System, step: Step)
    requires Inv(s) && Enabled(s, step) && step.Retry? && Contains(s.q.items, step.id)
    ensures var s' := Next(s, step);
            && step.id !in s'.workers && Contains(s'.q.items, step.id)
            && QueueEffects.DueFrom(TransferItems.Get(s'.q.items, step.id), step.at)
            && TransferItems.Get(s'.q.items, step.id).error == Some(step.error)
  {
    QueueEffects.RetryWaits(s.q, step.id, step.error, step.at);
    QueueEffects.UpdateConcerns(s.q.items, step.id, Rescheduled(step.error, step.at));
  }

  /** If not, the item is failed, with the error to be read. */
  lemma GiveUpFails(s: System, step: Step)
    requires Inv(s) && Enabled(s, step) && step.GiveUp? && Contains(s.q.items, step.id)
    ensures var s' := Next(s, step);
            && step.id !in s'.workers && Contains(s'.q.items, step.id)
            && TransferItems.Get(s'.q.items, step.id).status == Failed
            && TransferItems.Get(s'.q.items, step.id).error == Some(step.error)
  {
    QueueEffects.FailedStays(s.q, step.id, Some(step.error), step.now, step.historyCap);
  }
}
