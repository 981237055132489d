/**
  `update_github_csv` (bot.py lines 60-117): append one row to the CSV file
  kept in a GitHub repository, retrying when a concurrent write wins.

  The repository file is an abstract versioned store: it is absent or holds
  some content under a version (GitHub's blob `sha`). Fetching reads it,
  creating succeeds only when it is absent, and updating succeeds only when
  the caller names the current version. Whatever else happens during one
  attempt is scripted by a `Round`: whether the fetch raises, whether
  another writer appends its own row between our fetch and our write, and
  whether the write call itself fails with some status.

  The functions below are the specification of one attempt and of the
  whole call; the class `Repo` holds the store as mutable state and the
  method `UpdateCsv` is the retry loop, proved to agree with them.
*/
module GithubCsv {
  import opened Wrappers
  import CsvRow

  /** `max_retries` (bot.py line 68). */
  const MaxRetries: nat := 3

  /** The status that means "the version named is not the current one". */
  const Conflict: int := 409

  /** The status for updating a file that does not exist. */
  const NotFound: int := 404

  /** The status for creating a file that already exists. */
  const Unprocessable: int := 422

  /** The header the code prepares for a missing file (bot.py line 79). */
  const Header: string := "Date,Retailer,Tranche,Page_Count,Approver,Slack_Link\n"

  datatype Blob = Blob(content: string, version: nat)

  /** The file, if any, and the version the next successful write will get. */
  datatype Store = Store(file: Option<Blob>, next: nat)

  /** What a write call does: return normally, or raise `GithubException(status)`. */
  datatype Response = Ok | Failed(status: int)

  /**
    What happens around one attempt: the fetch raises, another writer
    appends the given row after our fetch, the write call fails with the
    given status.
  */
  datatype Round = Round(fetchFails: bool, rival: Option<seq<string>>, fault: Option<int>)

  /** The value returned, the final store, and the write responses seen in order. */
  datatype Outcome = Outcome(success: bool, store: Store, responses: seq<Response>)

  /** Every version handed out so far is below `next`. */
  predicate StoreValid(st: Store) {
    st.file.Some? ==> st.file.value.version < st.next
  }

  /** Round `i` of the script; past its end nothing goes wrong. */
  function RoundAt(rounds: seq<Round>, i: nat): Round {
    if i < |rounds| then rounds[i] else Round(false, None, None)
  }

  // ---------------------------------------------------------------------
  // The store's operations
  // ---------------------------------------------------------------------

  /** `get_contents`: any exception, like a missing file, reads as None. */
  function Fetch(st: Store, fails: bool): (r: Option<Blob>)
    ensures r.Some? ==> st.file == r
  {
    if fails then None else st.file
  }

  /** `create_file`: only a missing file can be created. */
  function Create(st: Store, content: string, fault: Option<int>): (r: (Response, Store))
    ensures r.0 == Ok <==> fault.None? && st.file.None?
    ensures r.0 == Ok ==> r.1 == Store(Some(Blob(content, st.next)), st.next + 1)
    ensures r.0 != Ok ==> r.1 == st
  {
    if fault.Some? then (Failed(fault.value), st)
    else if st.file.Some? then (Failed(Unprocessable), st)
    else (Ok, Store(Some(Blob(content, st.next)), st.next + 1))
  }

  /** `update_file`: only the current version can be replaced. */
  function Update(st: Store, content: string, sha: nat, fault: Option<int>): (r: (Response, Store))
    ensures r.0 == Ok <==> fault.None? && st.file.Some? && st.file.value.version == sha
    ensures r.0 == Ok ==> r.1 == Store(Some(Blob(content, st.next)), st.next + 1)
    ensures r.0 != Ok ==> r.1 == st
    ensures fault.None? && st.file.Some? && st.file.value.version != sha ==> r.0 == Failed(Conflict)
  {
    if fault.Some? then (Failed(fault.value), st)
    else if st.file.None? then (Failed(NotFound), st)
    else if st.file.value.version != sha then (Failed(Conflict), st)
    else (Ok, Store(Some(Blob(content, st.next)), st.next + 1))
  }

  predicate EndsWithNewline(s: string) {
    |s| > 0 && s[|s| - 1] == '\n'
  }

  /**
    The buffer written back (bot.py lines 88-97): the fetched content, a
    line break only when it does not already end with one, then the row.
    When the fetch failed the buffer is the row alone.
  */
  function NewContent(fetched: Option<Blob>, row: seq<string>): (r: string)
  {
    match fetched
    case None => CsvRow.WriteRow(row)
    case Some(b) =>
      b.content + (if EndsWithNewline(b.content) then "" else "\n") + CsvRow.WriteRow(row)
  }

  /**
    The buffer is the fetched content unchanged, then a line break exactly
    when that content does not end with one, then the serialised row.
  */
  lemma NewContentShape(fetched: Option<Blob>, row: seq<string>)
    ensures fetched.None? ==> NewContent(fetched, row) == CsvRow.WriteRow(row)
    ensures fetched.Some? ==>
      var c := NewContent(fetched, row);
      var prev := fetched.value.content;
      var w := CsvRow.WriteRow(row);
      var gap := if EndsWithNewline(prev) then 0 else 1;
      && prev <= c
      && |c| == |prev| + gap + |w|
      && c[|prev| + gap..] == w
      && c[|prev|..|prev| + gap] == (if gap == 0 then "" else "\n")
  {
  }

  /** Another writer appends its own row to whatever the store holds. */
  function Rival(st: Store, rival: Option<seq<string>>): (r: Store)
    ensures rival.Some? ==> r.file.Some? && r.file.value.version == st.next && r.next == st.next + 1
    ensures rival.None? ==> r == st
  {
    match rival
    case None => st
    case Some(rrow) => Store(Some(Blob(NewContent(st.file, rrow), st.next)), st.next + 1)
  }

  // ---------------------------------------------------------------------
  // One attempt and the whole call
  // ---------------------------------------------------------------------

  /**
    One iteration of the `for attempt` loop: fetch, build the buffer, let
    the rival write, then update the fetched version or create the file.
  */
  function Attempt(st: Store, row: seq<string>, round: Round): (r: (Response, Store))
  {
    var fetched := Fetch(st, round.fetchFails);
    var content := NewContent(fetched, row);
    var st1 := Rival(st, round.rival);
    match fetched
    case Some(b) => Update(st1, content, b.version, round.fault)
    case None => Create(st1, content, round.fault)
  }

  function Prepend(r: Response, o: Outcome): Outcome {
    Outcome(o.success, o.store, [r] + o.responses)
  }

  /**
    Attempts `attempt` to `MaxRetries - 1`: success returns True, status
    409 moves on to the next attempt, any other status returns False, and
    running out of attempts returns False.
  */
  function Run(st: Store, row: seq<string>, rounds: seq<Round>, attempt: nat): (r: Outcome)
    decreases MaxRetries - attempt
  {
    if attempt >= MaxRetries then Outcome(false, st, [])
    else
      var (resp, st1) := Attempt(st, row, RoundAt(rounds, attempt));
      match resp
      case Ok => Outcome(true, st1, [Ok])
      case Failed(status) =>
        if status == Conflict then Prepend(resp, Run(st1, row, rounds, attempt + 1))
        else Outcome(false, st1, [resp])
  }

  /** How many responses were conflicts; each one is followed by `time.sleep(1)`. */
  function Conflicts(rs: seq<Response>): nat {
    if rs == [] then 0 else (if rs[0] == Failed(Conflict) then 1 else 0) + Conflicts(rs[1..])
  }

  /** One step of `Run`, by what the attempt's write answered. */
  lemma RunStep(st: Store, row: seq<string>, rounds: seq<Round>, attempt: nat, resp: Response, st1: Store)
    requires attempt < MaxRetries
    requires Attempt(st, row, RoundAt(rounds, attempt)) == (resp, st1)
    ensures resp == Ok ==> Run(st, row, rounds, attempt) == Outcome(true, st1, [Ok])
    ensures resp.Failed? && resp.status != Conflict ==> Run(st, row, rounds, attempt) == Outcome(false, st1, [resp])
    ensures resp != Failed(Conflict) ==> Conflicts(Run(st, row, rounds, attempt).responses) == 0
    ensures resp == Failed(Conflict) ==>
      && Run(st, row, rounds, attempt) == Prepend(resp, Run(st1, row, rounds, attempt + 1))
      && Conflicts(Run(st, row, rounds, attempt).responses) == 1 + Conflicts(Run(st1, row, rounds, attempt + 1).responses)
  {
    if resp == Failed(Conflict) {
      var rs := [resp] + Run(st1, row, rounds, attempt + 1).responses;
      assert rs[1..] == Run(st1, row, rounds, attempt + 1).responses;
    } else {
      assert [resp][1..] == [];
    }
  }

  // ---------------------------------------------------------------------
  // The repository as mutable state
  // ---------------------------------------------------------------------

  class Repo {
    var file: Option<Blob>
    var nextVersion: nat

    ghost predicate Valid()
      reads this
    {
      StoreValid(State())
    }

    function State(): Store
      reads this
    {
      Store(file, nextVersion)
    }

    constructor (initial: Option<string>)
      ensures Valid()
      ensures file == (if initial.Some? then Some(Blob(initial.value, 0)) else None)
      ensures nextVersion == 1
    {
      file := if initial.Some? then Some(Blob(initial.value, 0)) else None;
      nextVersion := 1;
    }

    method GetContents(fails: bool) returns (r: Option<Blob>)
      ensures r == Fetch(State(), fails)
    {
      if fails {
        r := None;
      } else {
        r := file;
      }
    }

    method CreateFile(content: string, fault: Option<int>) returns (resp: Response)
      modifies this
      ensures (resp, State()) == Create(old(State()), content, fault)
    {
      if fault.Some? {
        resp := Failed(fault.value);
      } else if file.Some? {
        resp := Failed(Unprocessable);
      } else {
        file := Some(Blob(content, nextVersion));
        nextVersion := nextVersion + 1;
        resp := Ok;
      }
    }

    method UpdateFile(content: string, sha: nat, fault: Option<int>) returns (resp: Response)
      modifies this
      ensures (resp, State()) == Update(old(State()), content, sha, fault)
    {
      if fault.Some? {
        resp := Failed(fault.value);
      } else if file.None? {
        resp := Failed(NotFound);
      } else if file.value.version != sha {
        resp := Failed(Conflict);
      } else {
        file := Some(Blob(content, nextVersion));
        nextVersion := nextVersion + 1;
        resp := Ok;
      }
    }

    /** A concurrent writer appends its own row, if the round has one. */
    method RivalWrite(rival: Option<seq<string>>)
      modifies this
      ensures State() == Rival(old(State()), rival)
    {
      if rival.Some? {
        file := Some(Blob(NewContent(file, rival.value), nextVersion));
        nextVersion := nextVersion + 1;
      }
    }
  }

  /**
    The body of the `for attempt` loop up to the commit (bot.py lines
    71-105): fetch, build the buffer, let another writer in, then update or
    create. Returns what the write call answered.
  */
  method TryAttempt(repo: Repo, row: seq<string>, round: Round) returns (resp: Response)
    modifies repo
    requires |row| >= 5
    ensures (resp, repo.State()) == Attempt(old(repo.State()), row, round)
  {
    // 1. Fetch the file; any failure reads as a missing file.
    var fetched := repo.GetContents(round.fetchFails);
    var csvData: string;
    var sha: nat;
    var fileExists: bool;
    if fetched.Some? {
      csvData := fetched.value.content;
      sha := fetched.value.version;
      fileExists := true;
    } else {
      csvData := Header;
      sha := 0;
      fileExists := false;
    }

    // 2. Build the new content in a buffer; the header is not written.
    var output := "";
    if fileExists {
      output := output + csvData;
      if !EndsWithNewline(csvData) {
        output := output + "\n";
      }
    }
    output := output + CsvRow.WriteRow(row);
    assert output == NewContent(fetched, row);

    // Another writer may get in between.
    repo.RivalWrite(round.rival);

    // 3. Commit. The message reads the row's second and fifth fields.
    var message := "Log: " + row[1] + " by " + row[4];
    if fileExists {
      resp := repo.UpdateFile(output, sha, round.fault);
    } else {
      resp := repo.CreateFile(output, round.fault);
    }
  }

  /**
    After `sleeps` conflicts, `rest` is what the remaining attempts do: it
    ends as `goal` does, and takes the sleeps `goal` has not yet taken.
  */
  ghost predicate Remaining(goal: Outcome, rest: Outcome, sleeps: nat) {
    && rest.success == goal.success
    && rest.store == goal.store
    && sleeps + Conflicts(rest.responses) == Conflicts(goal.responses)
  }

  /**
    `update_github_csv(row)` against `repo` (bot.py lines 60-117), with
    `rounds` scripting what happens around each attempt. Returns the
    function's result and the number of one-second sleeps taken.
  */
  method UpdateCsv(repo: Repo, row: seq<string>, rounds: seq<Round>) returns (success: bool, sleeps: nat)
    requires |row| >= 5
    modifies repo
    ensures success == Run(old(repo.State()), row, rounds, 0).success
    ensures repo.State() == Run(old(repo.State()), row, rounds, 0).store
    ensures sleeps == Conflicts(Run(old(repo.State()), row, rounds, 0).responses)
    ensures old(repo.Valid()) ==> repo.Valid()
  {
    ghost var goal := Run(repo.State(), row, rounds, 0);
    if repo.Valid() {
      RunValid(repo.State(), row, rounds, 0);
    }
    sleeps := 0;
    var attempt := 0;
    while attempt < MaxRetries
      invariant 0 <= attempt <= MaxRetries
      invariant Remaining(goal, Run(repo.State(), row, rounds, attempt), sleeps)
      decreases MaxRetries - attempt
    {
      ghost var before := repo.State();
      var resp := TryAttempt(repo, row, RoundAt(rounds, attempt));
      RemainingStep(goal, before, row, rounds, attempt, sleeps, resp, repo.State());
      if resp.Ok? {
        return true, sleeps;
      }
      if resp.status != Conflict {
        return false, sleeps;
      }
      sleeps := sleeps + 1;
      attempt := attempt + 1;
    }
    RemainingDone(goal, repo.State(), row, rounds, sleeps);
    return false, sleeps;
  }

  /** How one attempt moves the loop's bookkeeping on. */
  lemma RemainingStep(goal: Outcome, st: Store, row: seq<string>, rounds: seq<Round>, attempt: nat,
                      sleeps: nat, resp: Response, st1: Store)
    requires attempt < MaxRetries
    requires Remaining(goal, Run(st, row, rounds, attempt), sleeps)
    requires Attempt(st, row, RoundAt(rounds, attempt)) == (resp, st1)
    ensures resp == Ok ==> goal.success && goal.store == st1 && sleeps == Conflicts(goal.responses)
    ensures resp.Failed? && resp.status != Conflict ==>
      !goal.success && goal.store == st1 && sleeps == Conflicts(goal.responses)
    ensures resp == Failed(Conflict) ==> Remaining(goal, Run(st1, row, rounds, attempt + 1), sleeps + 1)
  {
    RunStep(st, row, rounds, attempt, resp, st1);
  }

  /** Once the attempts are used up, the call has failed and every sleep is taken. */
  lemma RemainingDone(goal: Outcome, st: Store, row: seq<string>, rounds: seq<Round>, sleeps: nat)
    requires Remaining(goal, Run(st, row, rounds, MaxRetries), sleeps)
    ensures !goal.success && goal.store == st && sleeps == Conflicts(goal.responses)
  {
  }

  // ---------------------------------------------------------------------
  // Properties
  // ---------------------------------------------------------------------

  /**
    The retry policy: one to `MaxRetries - attempt` writes; every write but
    the last answered 409; the call succeeds exactly when the last write
    did; and a final 409 happens only once the attempts are used up.
  */
  lemma {:induction false} RetryPolicy(st: Store, row: seq<string>, rounds: seq<Round>, attempt: nat)
    requires attempt < MaxRetries
    ensures var rs := Run(st, row, rounds, attempt).responses;
      && 1 <= |rs| <= MaxRetries - attempt
      && (forall i :: 0 <= i < |rs| - 1 ==> rs[i] == Failed(Conflict))
      && (Run(st, row, rounds, attempt).success <==> rs[|rs| - 1] == Ok)
      && (rs[|rs| - 1] == Failed(Conflict) ==> |rs| == MaxRetries - attempt)
    decreases MaxRetries - attempt
  {
    var (resp, st1) := Attempt(st, row, RoundAt(rounds, attempt));
    RunStep(st, row, rounds, attempt, resp, st1);
    if resp == Failed(Conflict) {
      if attempt + 1 < MaxRetries {
        RetryPolicy(st1, row, rounds, attempt + 1);
      } else {
        assert Run(st1, row, rounds, attempt + 1).responses == [];
      }
    }
  }

  /** One sleep follows each 409, the last one included. */
  lemma {:induction false} SleepCount(st: Store, row: seq<string>, rounds: seq<Round>, attempt: nat)
    requires attempt < MaxRetries
    ensures var rs := Run(st, row, rounds, attempt).responses;
      |rs| >= 1 && Conflicts(rs) == (if rs[|rs| - 1] == Failed(Conflict) then |rs| else |rs| - 1)
    decreases MaxRetries - attempt
  {
    var (resp, st1) := Attempt(st, row, RoundAt(rounds, attempt));
    RunStep(st, row, rounds, attempt, resp, st1);
    if resp == Failed(Conflict) {
      if attempt + 1 < MaxRetries {
        SleepCount(st1, row, rounds, attempt + 1);
      } else {
        assert Run(st1, row, rounds, attempt + 1).responses == [];
      }
    }
  }

  /** No attempt ever rewrites rows that are already in the file. */
  lemma AttemptKeepsRows(st: Store, row: seq<string>, round: Round)
    requires st.file.Some?
    ensures var st1 := Attempt(st, row, round).1;
      st1.file.Some? && st.file.value.content <= st1.file.value.content
  {
    var fetched := Fetch(st, round.fetchFails);
    NewContentShape(fetched, row);
    if round.rival.Some? {
      NewContentShape(st.file, round.rival.value);
    }
  }

  /** Over the whole call the old content stays a prefix of the file: rows are only appended. */
  lemma {:induction false} RunKeepsRows(st: Store, row: seq<string>, rounds: seq<Round>, attempt: nat)
    requires st.file.Some?
    ensures var o := Run(st, row, rounds, attempt);
      o.store.file.Some? && st.file.value.content <= o.store.file.value.content
    decreases MaxRetries - attempt
  {
    if attempt < MaxRetries {
      var (resp, st1) := Attempt(st, row, RoundAt(rounds, attempt));
      AttemptKeepsRows(st, row, RoundAt(rounds, attempt));
      if resp.Failed? && resp.status == Conflict {
        RunKeepsRows(st1, row, rounds, attempt + 1);
      }
    }
  }

  /** A write that raises changes nothing: only the other writer's row, if any, reached the file. */
  lemma AttemptFailureUnchanged(st: Store, row: seq<string>, round: Round)
    ensures Attempt(st, row, round).0 != Ok ==> Attempt(st, row, round).1 == Rival(st, round.rival)
  {
  }

  /**
    A successful attempt wrote exactly the buffer built from what it
    fetched, under a fresh version, and no other writer got in between. A
    successful create means the file was missing, and leaves it holding the
    row alone, without the header.
  */
  lemma AttemptSucceeds(st: Store, row: seq<string>, round: Round)
    requires StoreValid(st)
    requires Attempt(st, row, round).0 == Ok
    ensures round.rival.None?
    ensures Attempt(st, row, round).1 ==
      Store(Some(Blob(NewContent(Fetch(st, round.fetchFails), row), st.next)), st.next + 1)
    ensures Fetch(st, round.fetchFails).None? ==>
      st.file.None? && Attempt(st, row, round).1.file.value.content == CsvRow.WriteRow(row)
  {
  }

  /** An attempt keeps the store valid and never hands out an older version. */
  lemma AttemptValid(st: Store, row: seq<string>, round: Round)
    requires StoreValid(st)
    ensures StoreValid(Attempt(st, row, round).1)
    ensures Attempt(st, row, round).1.next >= st.next
  {
  }

  /** After a successful attempt the file ends with the row, under a fresh version. */
  lemma AttemptEndsWithRow(st: Store, row: seq<string>, round: Round)
    requires StoreValid(st)
    requires Attempt(st, row, round).0 == Ok
    ensures var f := Attempt(st, row, round).1.file;
      var w := CsvRow.WriteRow(row);
      && f.Some? && f.value.version == st.next
      && |w| <= |f.value.content| && f.value.content[|f.value.content| - |w|..] == w
  {
    AttemptSucceeds(st, row, round);
    NewContentShape(Fetch(st, round.fetchFails), row);
  }

  /** Every store the call passes through stays valid. */
  lemma {:induction false} RunValid(st: Store, row: seq<string>, rounds: seq<Round>, attempt: nat)
    requires StoreValid(st)
    ensures StoreValid(Run(st, row, rounds, attempt).store)
    ensures Run(st, row, rounds, attempt).store.next >= st.next
    decreases MaxRetries - attempt
  {
    if attempt < MaxRetries {
      var (resp, st1) := Attempt(st, row, RoundAt(rounds, attempt));
      AttemptValid(st, row, RoundAt(rounds, attempt));
      RunStep(st, row, rounds, attempt, resp, st1);
      if resp == Failed(Conflict) {
        RunValid(st1, row, rounds, attempt + 1);
      }
    }
  }

  /**
    When the call succeeds, the file ends with the serialised row, under
    a version no earlier state of the store had.
  */
  lemma {:induction false} RunSucceeds(st: Store, row: seq<string>, rounds: seq<Round>, attempt: nat)
    requires StoreValid(st)
    requires Run(st, row, rounds, attempt).success
    ensures var f := Run(st, row, rounds, attempt).store.file;
      var w := CsvRow.WriteRow(row);
      && f.Some? && f.value.version >= st.next
      && |w| <= |f.value.content| && f.value.content[|f.value.content| - |w|..] == w
    decreases MaxRetries - attempt
  {
    if attempt >= MaxRetries {
      assert false;
    }
    var round := RoundAt(rounds, attempt);
    var (resp, st1) := Attempt(st, row, round);
    RunStep(st, row, rounds, attempt, resp, st1);
    if resp == Ok {
      AttemptEndsWithRow(st, row, round);
    } else if resp == Failed(Conflict) {
      AttemptValid(st, row, round);
      RunSucceeds(st1, row, rounds, attempt + 1);
    } else {
      assert false;
    }
  }

  /** With the file present, another writer getting in first makes the update answer 409. */
  lemma AttemptRivalConflict(st: Store, row: seq<string>, round: Round)
    requires StoreValid(st) && st.file.Some?
    requires !round.fetchFails && round.rival.Some? && round.fault.None?
    ensures Attempt(st, row, round).0 == Failed(Conflict)
    ensures StoreValid(Attempt(st, row, round).1) && Attempt(st, row, round).1.file.Some?
  {
  }

  /**
    Another writer appends its row between our fetch and our update: the
    update answers 409, the next attempt re-fetches, and the file ends with
    both rows, theirs first.
  */
  lemma RivalThenSuccess(content: string, version: nat, next: nat, theirs: seq<string>, ours: seq<string>)
    requires version < next
    ensures var st := Store(Some(Blob(content, version)), next);
      var o := Run(st, ours, [Round(false, Some(theirs), None)], 0);
      && o.success
      && o.responses == [Failed(Conflict), Ok]
      && Conflicts(o.responses) == 1
      && o.store.file.value.content ==
        NewContent(Some(Blob(NewContent(Some(Blob(content, version)), theirs), next)), ours)
  {
    var st := Store(Some(Blob(content, version)), next);
    var rounds := [Round(false, Some(theirs), None)];
    var st1 := Rival(st, Some(theirs));
    assert Attempt(st, ours, RoundAt(rounds, 0)) == (Failed(Conflict), st1);
    assert Attempt(st1, ours, RoundAt(rounds, 1)).0 == Ok;
  }

  /**
    Two calls one after another, starting from a missing file and with
    nothing going wrong: the first creates the file with its row alone, the
    second appends its row right after, with no extra line break.
  */
  lemma SequentialAppends(next: nat, a: seq<string>, b: seq<string>)
    ensures var o1 := Run(Store(None, next), a, [], 0);
      var o2 := Run(o1.store, b, [], 0);
      && o1.success && o1.store.file.value.content == CsvRow.WriteRow(a)
      && o2.success && o2.store.file.value.content == CsvRow.WriteRow(a) + CsvRow.WriteRow(b)
  {
    QuietRun(Store(None, next), a);
    QuietRun(Store(Some(Blob(CsvRow.WriteRow(a), next)), next + 1), b);
    AppendAfterRow(a, b, next);
  }

  /** A written row ends with a line break, so the next row follows it directly. */
  lemma AppendAfterRow(a: seq<string>, b: seq<string>, version: nat)
    ensures NewContent(None, a) == CsvRow.WriteRow(a)
    ensures NewContent(Some(Blob(CsvRow.WriteRow(a), version)), b) == CsvRow.WriteRow(a) + CsvRow.WriteRow(b)
  {
    var w := CsvRow.WriteRow(a);
    RowEndsWithNewline(a);
    assert w + "" == w;
  }

  /** `writerow` ends every record with CRLF, hence with a line feed. */
  lemma RowEndsWithNewline(row: seq<string>)
    ensures EndsWithNewline(CsvRow.WriteRow(row))
  {
    var w := CsvRow.WriteRow(row);
    assert w[|w| - 2..][1] == w[|w| - 1];
  }

  /** With nothing going wrong, one call stores the buffer under the next version at once. */
  lemma QuietRun(st: Store, row: seq<string>)
    ensures Run(st, row, [], 0) == Outcome(true, Store(Some(Blob(NewContent(st.file, row), st.next)), st.next + 1), [Ok])
  {
    var quiet := Round(false, None, None);
    assert RoundAt([], 0) == quiet;
    var st1 := Store(Some(Blob(NewContent(st.file, row), st.next)), st.next + 1);
    assert Attempt(st, row, quiet) == (Ok, st1);
    RunStep(st, row, [], 0, Ok, st1);
  }

  /** A conflict on every attempt uses up all three and returns False after three sleeps. */
  lemma ConflictsExhaust(st: Store, row: seq<string>, rounds: seq<Round>)
    requires StoreValid(st) && st.file.Some?
    requires |rounds| == MaxRetries
    requires forall i :: 0 <= i < |rounds| ==> !rounds[i].fetchFails && rounds[i].rival.Some? && rounds[i].fault.None?
    ensures var o := Run(st, row, rounds, 0);
      !o.success && o.responses == [Failed(Conflict), Failed(Conflict), Failed(Conflict)] && Conflicts(o.responses) == 3
  {
    ConflictsFrom(st, row, rounds, 0);
    assert AllConflicts(3) == [Failed(Conflict), Failed(Conflict), Failed(Conflict)];
  }

  /** `n` conflict responses. */
  function AllConflicts(n: nat): (rs: seq<Response>)
    ensures |rs| == n && Conflicts(rs) == n
  {
    if n == 0 then [] else [Failed(Conflict)] + AllConflicts(n - 1)
  }

  /** From attempt `i` on, with a rival getting in first every time, every remaining attempt answers 409. */
  lemma {:induction false} ConflictsFrom(st: Store, row: seq<string>, rounds: seq<Round>, i: nat)
    requires StoreValid(st) && st.file.Some?
    requires i <= MaxRetries && |rounds| == MaxRetries
    requires forall k :: 0 <= k < |rounds| ==> !rounds[k].fetchFails && rounds[k].rival.Some? && rounds[k].fault.None?
    ensures !Run(st, row, rounds, i).success
    ensures Run(st, row, rounds, i).responses == AllConflicts(MaxRetries - i)
    decreases MaxRetries - i
  {
    if i < MaxRetries {
      var st1 := ConflictRound(st, row, rounds, i);
      ConflictsFrom(st1, row, rounds, i + 1);
    }
  }

  /** Attempt `i` of a script in which a rival always gets in first answers 409 and goes on. */
  lemma ConflictRound(st: Store, row: seq<string>, rounds: seq<Round>, i: nat) returns (st1: Store)
    requires StoreValid(st) && st.file.Some?
    requires i < |rounds| && i < MaxRetries
    requires !rounds[i].fetchFails && rounds[i].rival.Some? && rounds[i].fault.None?
    ensures StoreValid(st1) && st1.file.Some?
    ensures Run(st, row, rounds, i) == Prepend(Failed(Conflict), Run(st1, row, rounds, i + 1))
  {
    AttemptRivalConflict(st, row, rounds[i]);
    st1 := Attempt(st, row, RoundAt(rounds, i)).1;
    RunStep(st, row, rounds, i, Failed(Conflict), st1);
  }

  /** Any status other than 409 ends the call at once with False, leaving the file as it was. */
  lemma HardErrorStops(st: Store, row: seq<string>, rounds: seq<Round>, status: int)
    requires |rounds| > 0 && rounds[0] == Round(false, None, Some(status)) && status != Conflict
    ensures Run(st, row, rounds, 0) == Outcome(false, st, [Failed(status)])
  {
  }

  /**
    A failed fetch of a file that exists leads to a create, which the store
    refuses; the call returns False at once and the file is untouched.
  */
  lemma FetchFailureOnExistingFile(st: Store, row: seq<string>, rounds: seq<Round>)
    requires st.file.Some?
    requires |rounds| > 0 && rounds[0] == Round(true, None, None)
    ensures Run(st, row, rounds, 0) == Outcome(false, st, [Failed(Unprocessable)])
  {
  }
}
