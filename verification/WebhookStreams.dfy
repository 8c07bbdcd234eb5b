/** A sender's stream on a feed that batches, readers and pins share: what it yields is what the sender may
    take (src/webhook.rs, src/cdc.rs, src/changefeed.rs). */
module WebhookStreams {
  import opened JsonValues
  import opened Sorting
  import opened Feeds
  import opened FeedObjects
  import opened ChangeStreams
  import FeedRuns
  import WebhookRuns

  /** On a run of the feed without a slip, a live reader can be read from and stays where it asked to be. */
  lemma ReaderCanBeRead(
    log: seq<Event>, config: Config, position: nat, run: seq<FeedRuns.System>, steps: seq<FeedRuns.Step>,
    i: nat, id: nat)
    requires Ascending(log) && FeedRuns.IsRun(log, config, position, run, steps) && i < |run|
    requires FeedRuns.NothingSlips(log, config, run, steps, i) && id in run[i].live
    ensures var f := run[i].feed; Contained(log, config, f) && Ascending(f.events) && Unbroken(log, f)
    ensures id in run[i].readers && Kept(log, run[i].feed, run[i].readers[id].sub)
    ensures var r := run[i].readers[id]; r.named.Some? ==> r.sub.strict && r.sub.start == r.named.value
  {
    hide FeedRuns.IsRun, FeedRuns.NothingSlips, Slice;
    FeedRuns.EveryStateIsSound(log, config, position, run, steps, i);
    FeedRuns.WatchedCanBeRead(log, config, run[i], id);
  }

  /** What comes next of the admitted events is what the sender's step asks for. */
  lemma NextIsPulled(
    log: seq<Event>, filter: CdcFilter, g: WebhookRuns.Group, n: nat, e: Event, yielded: seq<Event>)
    requires WebhookRuns.Sending(g, n) && !g.nodes[n].sender.value.acked
    requires var s := g.nodes[n].sender.value;
      yielded == s.yielded + [e] == AdmittedIn(log, filter, s.base, e.lsn)
    ensures var owed := Filter(Admitting(filter), log);
      && WebhookRuns.Enabled(owed, g, WebhookRuns.Pull(n, e))
      && WebhookRuns.Next(owed, g, WebhookRuns.Pull(n, e)).nodes[n].sender.value.yielded == yielded
  {
    hide Slice;
    FiltersCommute(log, filter, g.nodes[n].sender.value.base, e.lsn);
  }

  /** One read of a sender: its subscription is a reader of the run that resumed from the sender's base, and
      the stream has yielded what the sender has taken. */
  method PullNext(
    stream: CdcStream, leading: bool, ghost log: seq<Event>, ghost position: nat, ghost run: seq<FeedRuns.System>,
    ghost steps: seq<FeedRuns.Step>, ghost i: nat, ghost id: nat, ghost g: WebhookRuns.Group, ghost n: nat)
    returns (answer: Answer)
    requires stream.Valid() && Ascending(log)
    requires FeedRuns.IsRun(log, stream.sub.feed.config, position, run, steps) && i < |run|
    requires FeedRuns.NothingSlips(log, stream.sub.feed.config, run, steps, i) && id in run[i].live
      && id in run[i].readers
    requires stream.sub.feed.State() == run[i].feed && stream.sub.State() == run[i].readers[id].sub
    requires WebhookRuns.Sending(g, n) && !g.nodes[n].sender.value.acked
    requires var s := g.nodes[n].sender.value;
      run[i].readers[id].named == Some(s.base) && stream.yielded == s.yielded
    modifies stream, stream.sub, stream.sub.feed`overruns
    ensures stream.Valid() && stream.sub.feed.State() == run[i].feed && Kept(log, run[i].feed, stream.sub.State())
    ensures !answer.Yielded? ==> stream.yielded == old(stream.yielded)
    ensures answer.Yielded? ==>
      var owed := Filter(Admitting(stream.filter), log);
      && WebhookRuns.Enabled(owed, g, WebhookRuns.Pull(n, answer.e))
      && WebhookRuns.Next(owed, g, WebhookRuns.Pull(n, answer.e)).nodes[n].sender.value.yielded == stream.yielded
  {
    hide FeedRuns.IsRun, FeedRuns.NothingSlips, AdmittedIn, WebhookRuns.Enabled, WebhookRuns.Next, Kept, Contained;
    ReaderCanBeRead(log, stream.sub.feed.config, position, run, steps, i, id);
    answer := stream.Next(leading, log);
    if answer.Yielded? { NextIsPulled(log, stream.filter, g, n, answer.e, stream.yielded); }
  }
}
