/** The ScrapeJob lifecycle and the Quote hash-on-save rule of models.py.

    A Django model instance and the database row it was loaded from are two
    things: `save(update_fields=...)` copies some attributes of the instance into
    the row, and a query returns a new instance. `ScrapeJob` below keeps both: its
    own attributes, and `row`, the persisted record. */
module Jobs {
  import opened Wrappers
  import Hashing

  datatype Status = Pending | Running | Success | Partial | Failed

  predicate IsTerminal(s: Status) {
    s == Success || s == Partial || s == Failed
  }

  /** The columns of a scrape job that the scraper reads and writes. Timestamps are
      only "set" or "not set". */
  datatype JobRow = JobRow(status: Status, started: bool, finished: bool,
                           fetched: int, saved: int, errors: int)

  /** The row of a job that was just created. */
  const NewJob := JobRow(Pending, false, false, 0, 0, 0)

  /** The status mark_finished chooses from `success` and the counters it sees. */
  function FinishedStatus(success: bool, saved: int, errors: int): (s: Status)
    ensures IsTerminal(s)
    ensures !success ==> s == Failed
    ensures success ==> (s == Partial <==> errors > 0 && saved > 0)
    ensures success ==> (s == Success <==> saved > 0 && errors <= 0)
    ensures success ==> (s == Failed <==> saved <= 0)
  {
    if !success then Failed
    else if errors > 0 && saved > 0 then Partial
    else if saved > 0 then Success
    else Failed
  }

  /** The row after increment_counters adds the three deltas. */
  function Incremented(r: JobRow, fetched: int, saved: int, errors: int): (r': JobRow)
    ensures r'.fetched - r.fetched == fetched && r'.saved - r.saved == saved && r'.errors - r.errors == errors
    ensures r'.status == r.status && r'.started == r.started && r'.finished == r.finished
  {
    r.(fetched := r.fetched + fetched, saved := r.saved + saved, errors := r.errors + errors)
  }

  /** The row after mark_running on an instance that agrees with it. */
  function Started(r: JobRow): (r': JobRow)
    ensures r'.status == Running && r'.started
    ensures r'.finished == r.finished && r'.fetched == r.fetched && r'.saved == r.saved && r'.errors == r.errors
  {
    r.(status := Running, started := true)
  }

  /** The row after mark_finished(success) on an instance that agrees with it. */
  function Finished(r: JobRow, success: bool): (r': JobRow)
    ensures r'.finished && IsTerminal(r'.status)
    ensures r'.status == FinishedStatus(success, r.saved, r.errors)
    ensures r'.started == r.started && r'.fetched == r.fetched && r'.saved == r.saved && r'.errors == r.errors
  {
    r.(status := FinishedStatus(success, r.saved, r.errors), finished := true)
  }

  /** The row after mark_finished(success) on an instance whose counters are those of
      `seen`, which need not be the row's own: mark_finished saves the status it derives
      from the instance, not from the row. */
  function FinishedSeeing(r: JobRow, success: bool, seen: JobRow): (r': JobRow)
    ensures r'.finished && IsTerminal(r'.status)
    ensures r'.status == FinishedStatus(success, seen.saved, seen.errors)
    ensures r'.started == r.started && r'.fetched == r.fetched && r'.saved == r.saved && r'.errors == r.errors
    ensures seen.saved == r.saved && seen.errors == r.errors ==> r' == Finished(r, success)
  {
    r.(status := FinishedStatus(success, seen.saved, seen.errors), finished := true)
  }

  /** With non-negative deltas no counter decreases. */
  lemma IncrementedMonotone(r: JobRow, fetched: nat, saved: nat, errors: nat)
    ensures var r' := Incremented(r, fetched, saved, errors);
      r'.fetched >= r.fetched && r'.saved >= r.saved && r'.errors >= r.errors
  {
  }

  /** Two flushes add up to one flush of the summed deltas. */
  lemma IncrementedTwice(r: JobRow, f1: int, s1: int, e1: int, f2: int, s2: int, e2: int)
    ensures Incremented(Incremented(r, f1, s1, e1), f2, s2, e2) == Incremented(r, f1 + f2, s1 + s2, e1 + e2)
  {
  }

  /** A finished job stays terminal when it is finished again: the status is a function of
      `success` and the counters only, never of the previous status. */
  lemma FinishedIgnoresPreviousStatus(r: JobRow, s: Status, success: bool)
    ensures Finished(r.(status := s), success) == Finished(r, success)
  {
  }

  class ScrapeJob {
    var status: Status
    var started: bool
    var finished: bool
    var quotesFetched: int
    var quotesSaved: int
    var errorsCount: int
    /** The database row this instance was loaded from and saves into. */
    var row: JobRow

    /** The instance's own attributes, read as a row. */
    function Attributes(): JobRow
      reads this
    {
      JobRow(status, started, finished, quotesFetched, quotesSaved, errorsCount)
    }

    /** The instance holds what the database holds. */
    predicate InSync()
      reads this
    {
      Attributes() == row
    }

    /** The instance `ScrapeJob.objects.get` returns for row `r`. */
    constructor Load(r: JobRow)
      ensures row == r && InSync()
    {
      status, started, finished := r.status, r.started, r.finished;
      quotesFetched, quotesSaved, errorsCount := r.fetched, r.saved, r.errors;
      row := r;
    }

    /** mark_running: RUNNING and a start time, from any status; saves only those two. */
    method MarkRunning()
      modifies this
      ensures status == Running && started
      ensures finished == old(finished) && quotesFetched == old(quotesFetched)
      ensures quotesSaved == old(quotesSaved) && errorsCount == old(errorsCount)
      ensures row == old(row).(status := Running, started := true)
      ensures old(InSync()) ==> InSync() && row == Started(old(row))
    {
      status := Running;
      started := true;
      row := row.(status := status, started := started);
    }

    /** mark_finished: a finish time and the status derived from the instance's own
        counters; saves only those two. */
    method MarkFinished(success: bool)
      modifies this
      ensures finished && status == FinishedStatus(success, old(quotesSaved), old(errorsCount))
      ensures started == old(started) && quotesFetched == old(quotesFetched)
      ensures quotesSaved == old(quotesSaved) && errorsCount == old(errorsCount)
      ensures row == FinishedSeeing(old(row), success, old(Attributes()))
      ensures old(InSync()) ==> InSync() && row == Finished(old(row), success)
    {
      finished := true;
      if !success {
        status := Failed;
      } else if errorsCount > 0 && quotesSaved > 0 {
        status := Partial;
      } else if quotesSaved > 0 {
        status := Success;
      } else {
        status := Failed;
      }
      row := row.(status := status, finished := finished);
    }

    /** increment_counters as written: the deltas are added to the row re-read under a
        lock, and the instance is left as it was. */
    method IncrementCounters(fetched: int, saved: int, errors: int)
      modifies this`row
      ensures row == Incremented(old(row), fetched, saved, errors)
      ensures Attributes() == old(Attributes())
    {
      row := row.(fetched := row.fetched + fetched, saved := row.saved + saved,
                  errors := row.errors + errors);
    }

    /** increment_counters followed by a refresh of the instance's counters from the
        row, so that a later mark_finished sees the stored totals. */
    method IncrementCountersAndRefresh(fetched: int, saved: int, errors: int)
      modifies this
      ensures row == Incremented(old(row), fetched, saved, errors)
      ensures quotesFetched == row.fetched && quotesSaved == row.saved && errorsCount == row.errors
      ensures status == old(status) && started == old(started) && finished == old(finished)
      ensures old(InSync()) ==> InSync()
    {
      IncrementCounters(fetched, saved, errors);
      quotesFetched, quotesSaved, errorsCount := row.fetched, row.saved, row.errors;
    }
  }

  /** A fresh job whose page flush stored three quotes and which then finishes with
      success, as scrape_site does it: the row says three quotes were saved and, at the
      same time, that the job FAILED. */
  method StaleCountersExample() returns (status: Status, saved: int)
    ensures saved == 3 && status == Failed
  {
    var job := new ScrapeJob.Load(NewJob);
    job.MarkRunning();
    job.IncrementCounters(1, 3, 0);
    job.MarkFinished(true);
    status, saved := job.row.status, job.row.saved;
  }

  /** The same run with the refreshing increment ends SUCCESS. */
  method RefreshedCountersExample() returns (status: Status, saved: int)
    ensures saved == 3 && status == Success
  {
    var job := new ScrapeJob.Load(NewJob);
    job.MarkRunning();
    job.IncrementCountersAndRefresh(1, 3, 0);
    job.MarkFinished(true);
    status, saved := job.row.status, job.row.saved;
  }

  /** A quote as Quote.save sees it; `author` is the linked author's name. */
  class Quote {
    var text: string
    var author: Option<string>
    var hash: string

    constructor (text: string, author: Option<string>, hash: string)
      ensures this.text == text && this.author == author && this.hash == hash
    {
      this.text, this.author, this.hash := text, author, hash;
    }

    /** Quote.save: an empty hash is computed from the text and the author's name (the
        empty name when there is no author); a preset hash is kept as it is. */
    method Save(sha256: string -> string)
      modifies this`hash
      ensures old(hash) != "" ==> hash == old(hash)
      ensures old(hash) == "" ==> hash == Hashing.ComputeQuoteHash(Some(text), Some(OrEmpty(author)), sha256)
    {
      if hash == "" {
        var authorName := if author.Some? then author.value else "";
        hash := Hashing.ComputeQuoteHash(Some(text), Some(authorName), sha256);
      }
    }
  }

  /** Saving a quote created with the key of its own text and author stores that key,
      whether or not the key happens to be empty: the key for "no author" and for the
      empty author name is the same. */
  lemma SaveKeepsOwnKey(text: string, author: Option<string>, sha256: string -> string)
    ensures var h := Hashing.ComputeQuoteHash(Some(text), author, sha256);
      h == Hashing.ComputeQuoteHash(Some(text), Some(OrEmpty(author)), sha256)
  {
  }
}
