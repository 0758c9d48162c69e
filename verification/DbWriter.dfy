/** The database writer: one batch, one transaction, bounded retries, and what stays behind. */
module DbWriter {
  import opened Types
  import opened DbCommands
  import opened BatchSpec

  // ---------------------------------------------------------------------------------------
  // Errors and how they are read
  // ---------------------------------------------------------------------------------------

  /** An error as it is passed on: the database's own text, and the context wrapped around it, if any. */
  datatype Error = Error(text: string, context: Option<string>)

  /** An error prints as its outermost layer. */
  function Shown(e: Error): string {
    match e.context
    case Some(context) => context
    case None => e.text
  }

  predicate Contains(s: string, word: string) {
    word <= s || (s != [] && Contains(s[1..], word))
  }

  predicate TellsOfDeadlock(text: string) {
    Contains(text, "deadlock") || Contains(text, "40P01")
  }

  /** `is_deadlock_error` */
  predicate IsDeadlockError(e: Error) {
    TellsOfDeadlock(Shown(e))
  }

  /** The context `process_db_command` wraps around a failing statement; the other commands have none
      to fail. */
  function ContextOf(c: DbCommand): Option<string> {
    match c
    case InsertOrder(_, _, _, _, _, _, _, _, _, _) => Some("Failed to insert order")
    case UpdateOrderStatus(_, _, _, _) => Some("Failed to update order status")
    case InsertTrade(_) => None
    case UpdateBalance(_, _, _, _) => None
  }

  /** How the database answers one attempt to write a batch; a statement or the commit may be refused
      with any text. */
  datatype Attempt =
    | BeginFails
    | CommandFails(at: nat, text: string)   // at this position, if there is a statement to fail
    | CommitFails(text: string)
    | Commits

  /** The error of command `i` under `a`, if it fails. */
  function CommandError(a: Attempt, cs: seq<DbCommand>, i: nat): Option<Error>
    requires i < |cs|
  {
    if a.CommandFails? && a.at == i && ContextOf(cs[i]).Some? then Some(Error(a.text, ContextOf(cs[i]))) else None
  }

  datatype Verdict = Done | Retry | Fail

  /** What an attempt to write `cs` means. */
  function Judge(a: Attempt, cs: seq<DbCommand>): Verdict {
    match a
    case BeginFails => Retry
    case CommandFails(at, _) =>
      if at >= |cs| || CommandError(a, cs, at).None? then Done
      else if IsDeadlockError(CommandError(a, cs, at).value) then Retry else Fail
    case CommitFails(text) => if IsDeadlockError(Error(text, None)) then Retry else Fail
    case Commits => Done
  }

  const MAX_RETRIES := 5

  /** The milliseconds waited in all before the first attempt and after each retry. */
  const WAITS: seq<nat> := [0, 100, 300, 700, 1500, 3100]

  function Pow2(n: nat): nat {
    if n == 0 then 1 else 2 * Pow2(n - 1)
  }

  /** The flush succeeds at attempt `k`, after `k` retries. */
  ghost predicate SucceedsAt(answers: nat -> Attempt, cs: seq<DbCommand>, k: nat) {
    k <= MAX_RETRIES && Judge(answers(k), cs) == Done && forall j :: 0 <= j < k ==> Judge(answers(j), cs) == Retry
  }

  // ---------------------------------------------------------------------------------------
  // Which errors are retried
  // ---------------------------------------------------------------------------------------

  lemma {:induction false} LettersOf(s: string, word: string, c: char)
    requires Contains(s, word) && c in word
    ensures c in s
  {
    if !(word <= s) {
      LettersOf(s[1..], word, c);
    }
  }

  /** The context hides the text, and tells of no deadlock itself. */
  lemma ContextHidesDeadlocks(c: DbCommand, text: string)
    requires ContextOf(c).Some?
    ensures !IsDeadlockError(Error(text, ContextOf(c)))
  {
    var shown := ContextOf(c).value;
    assert shown == "Failed to insert order" || shown == "Failed to update order status";
    assert forall i :: 0 <= i < |shown| ==> shown[i] != 'k' && shown[i] != '4';
    assert "deadlock"[7] == 'k' && "40P01"[0] == '4';
    if Contains(shown, "deadlock") {
      LettersOf(shown, "deadlock", 'k');
    }
    if Contains(shown, "40P01") {
      LettersOf(shown, "40P01", '4');
    }
  }

  /** An attempt is retried if and only if the transaction could not begin, or all commands went through
      and the commit told of a deadlock.  A deadlock inside a command is never recognised. */
  lemma RetriedIff(a: Attempt, cs: seq<DbCommand>)
    ensures Judge(a, cs) == Retry <==> a.BeginFails? || (a.CommitFails? && TellsOfDeadlock(a.text))
    ensures Judge(a, cs) == Fail <==>
            || (a.CommandFails? && a.at < |cs| && ContextOf(cs[a.at]).Some?)
            || (a.CommitFails? && !TellsOfDeadlock(a.text))
  {
    hide TellsOfDeadlock, IsDeadlockError;
    if a.CommandFails? && a.at < |cs| && ContextOf(cs[a.at]).Some? {
      ContextHidesDeadlocks(cs[a.at], a.text);
    }
    if a.CommitFails? {
      PlainText(a.text);
    }
  }

  lemma PlainText(text: string)
    ensures IsDeadlockError(Error(text, None)) == TellsOfDeadlock(text)
  {}

  const DEADLOCK := "error returned from database: deadlock detected"

  lemma DeadlockIsTold()
    ensures TellsOfDeadlock(DEADLOCK)
  {
    hide Contains;
    assert |DEADLOCK| == 47 && |"deadlock"| == 8;
    assert DEADLOCK[30..38] == "deadlock";
    ContainsAt(DEADLOCK, "deadlock", 30);
  }

  /** A single status update that deadlocks makes the flush fail at once, although the next attempt would
      have succeeded; the same text from the commit would have been retried. */
  lemma DeadlockInACommandIsFinal(answers: nat -> Attempt, c: DbCommand)
    requires c.UpdateOrderStatus?
    requires answers(0) == CommandFails(0, DEADLOCK) && answers(1) == Commits
    ensures forall k: nat :: !SucceedsAt(answers, [c], k)
    ensures Judge(answers(1), [c]) == Done && Judge(CommitFails(DEADLOCK), [c]) == Retry
  {
    hide Contains, TellsOfDeadlock, IsDeadlockError, DEADLOCK;
    DeadlockIsTold();
    RetriedIff(answers(0), [c]);
    RetriedIff(CommitFails(DEADLOCK), [c]);
    NeverSucceeds(answers, [c], 0);
  }

  /** After `r` retries a final error, or one retry too many, means that no attempt succeeds. */
  lemma NeverSucceeds(answers: nat -> Attempt, cs: seq<DbCommand>, r: nat)
    requires r <= MAX_RETRIES && forall j :: 0 <= j < r ==> Judge(answers(j), cs) == Retry
    requires Judge(answers(r), cs) == Fail || (r == MAX_RETRIES && Judge(answers(r), cs) == Retry)
    ensures forall k: nat :: !SucceedsAt(answers, cs, k)
  {
    hide Judge;
  }

  lemma Succeeds(answers: nat -> Attempt, cs: seq<DbCommand>, r: nat)
    requires r <= MAX_RETRIES && forall j :: 0 <= j < r ==> Judge(answers(j), cs) == Retry
    requires Judge(answers(r), cs) == Done
    ensures SucceedsAt(answers, cs, r)
  {}

  lemma {:induction false} ContainsAt(s: string, word: string, i: nat)
    requires i + |word| <= |s| && s[i..i + |word|] == word
    ensures Contains(s, word)
  {
    if i > 0 {
      assert s[1..][i - 1..i - 1 + |word|] == s[i..i + |word|];
      ContainsAt(s[1..], word, i - 1);
    }
  }

  /** What a successful flush leaves in the batch: positions of the filtered, sorted list are removed
      from the original list, so the first |Kept| commands go, whatever they are. */
  function Leftover(batch: seq<DbCommand>): (r: seq<DbCommand>)
    ensures |r| == |OfKind(batch, 4)|
  {
    KeptAndDropped(batch);
    batch[|Kept(batch)|..]
  }

  lemma {:induction false} KeptAndDropped(cs: seq<DbCommand>)
    ensures |Kept(cs)| + |OfKind(cs, 4)| == |cs|
  {
    if cs != [] {
      KeptAndDropped(cs[1..]);
    }
  }

  class Writer {
    var batch: seq<DbCommand>
    var orders: Orders

    constructor (orders: Orders)
      ensures this.orders == orders && batch == []
    {
      this.orders := orders;
      batch := [];
    }

    method Push(c: DbCommand)
      modifies this`batch
      ensures batch == old(batch) + [c]
    {
      batch := batch + [c];
    }

    /** `flush_batch`.  All or nothing: an error leaves table and batch untouched; success applies
        every kept command once.  At most 6 attempts, at most 3100 ms of waiting. */
    method FlushBatch(answers: nat -> Attempt) returns (ok: bool, retries: nat, slept: nat)
      modifies this
      ensures retries <= MAX_RETRIES && slept == 100 * (Pow2(retries) - 1) && slept <= 3100
      ensures slept == WAITS[retries]
      ensures !ok ==> orders == old(orders) && batch == old(batch)
      ensures ok ==> orders == ApplyAll(old(orders), Processed(old(batch))) && batch == Leftover(old(batch))
      ensures old(batch) != [] ==>
                (ok <==> exists k :: SucceedsAt(answers, Processed(old(batch)), k))
      ensures old(batch) != [] && ok ==> SucceedsAt(answers, Processed(old(batch)), retries)
      ensures old(batch) == [] ==> ok && retries == 0
    {
      retries, slept := 0, 0;
      PowersUpToMax();
      if batch == [] {
        return true, retries, slept;
      }
      var processed := SortForTransaction();
      ProcessedIs(batch);
      KeptAndDropped(batch);
      hide Processed, Kept, OfKind, ApplyAll, IsDeadlockError, ContextOf, SucceedsAt, Pow2, WAITS;
      while true
        invariant retries <= MAX_RETRIES && slept == 100 * (Pow2(retries) - 1)
        invariant orders == old(orders) && batch == old(batch)
        invariant forall j :: 0 <= j < retries ==> Judge(answers(j), processed) == Retry
        decreases MAX_RETRIES - retries
      {
        hide Judge;
        var verdict := TryTransaction(processed, answers(retries));
        match verdict {
          case Done =>
            Succeeds(answers, processed, retries);
            return true, retries, slept;
          case Fail =>
            NeverSucceeds(answers, processed, retries);
            return false, retries, slept;
          case Retry =>
            if retries < MAX_RETRIES {
              retries := retries + 1;
              slept := slept + 100 * Pow2(retries - 1);
            } else {
              NeverSucceeds(answers, processed, retries);
              return false, retries, slept;
            }
        }
      }
    }

    /** One attempt: begin, run the commands, commit; only a commit changes table and batch. */
    method TryTransaction(processed: seq<DbCommand>, attempt: Attempt) returns (verdict: Verdict)
      requires |processed| <= |batch|
      modifies this
      ensures verdict == Judge(attempt, processed)
      ensures verdict == Done ==> orders == ApplyAll(old(orders), processed) && batch == old(batch)[|processed|..]
      ensures verdict != Done ==> orders == old(orders) && batch == old(batch)
    {
      hide ApplyAll, IsDeadlockError, ContextOf;
      if attempt.BeginFails? {
        return Retry;
      }
      var tx, successful, error := RunCommands(orders, processed, attempt);
      if error.Some? {
        return if IsDeadlockError(error.value) then Retry else Fail;
      }
      if attempt.CommitFails? {
        return if IsDeadlockError(Error(attempt.text, None)) then Retry else Fail;
      }
      orders := tx;
      RemoveIndices(successful);
      verdict := Done;
    }

    /** Filter out balance updates, then sort by priority. */
    method SortForTransaction() returns (processed: seq<DbCommand>)
      ensures processed == Processed(batch)
    {
      var others := [];
      var i := 0;
      while i < |batch|
        invariant 0 <= i <= |batch|
        invariant others == Kept(batch[..i])
      {
        assert batch[..i + 1] == batch[..i] + [batch[i]];
        KeptDistributes(batch[..i], [batch[i]]);
        if !batch[i].UpdateBalance? {
          others := others + [batch[i]];
        }
        i := i + 1;
      }
      assert batch[..i] == batch;
      processed := StableSort(others);
    }

    /** `batch.remove(idx)` for every successful index, largest first. */
    method RemoveIndices(successful: seq<nat>)
      requires |successful| <= |batch| && forall i :: 0 <= i < |successful| ==> successful[i] == i
      modifies this`batch
      ensures batch == old(batch)[|successful|..]
    {
      var i := |successful|;
      while i > 0
        invariant 0 <= i <= |successful|
        invariant batch == old(batch)[..i] + old(batch)[|successful|..]
      {
        i := i - 1;
        var idx := successful[i];
        batch := batch[..idx] + batch[idx + 1..];
      }
    }
  }

  /** The commands of one transaction, on a copy of the table; stops at the first error. */
  method RunCommands(orders: Orders, processed: seq<DbCommand>, attempt: Attempt)
    returns (tx: Orders, successful: seq<nat>, error: Option<Error>)
    ensures error == if attempt.CommandFails? && attempt.at < |processed|
                     then CommandError(attempt, processed, attempt.at) else None
    ensures error.None? ==> tx == ApplyAll(orders, processed)
    ensures error.None? ==> |successful| == |processed| && forall i :: 0 <= i < |successful| ==> successful[i] == i
  {
    tx, successful, error := orders, [], None;
    var idx := 0;
    assert processed[0..] == processed;
    while idx < |processed|
      invariant 0 <= idx <= |processed|
      invariant ApplyAll(orders, processed) == ApplyAll(tx, processed[idx..])
      invariant |successful| == idx && forall i :: 0 <= i < idx ==> successful[i] == i
      invariant forall i :: 0 <= i < idx ==> CommandError(attempt, processed, i).None?
    {
      error := CommandError(attempt, processed, idx);
      if error.Some? {
        return;
      }
      assert processed[idx..][1..] == processed[idx + 1..];
      tx := Apply(tx, processed[idx]);
      successful := successful + [idx];
      idx := idx + 1;
    }
    error := None;
  }

  /** A flush survives as many as five refused transactions, and not six. */
  lemma FiveRefusals(answers: nat -> Attempt, cs: seq<DbCommand>, n: nat)
    requires (forall j :: 0 <= j < n ==> answers(j) == BeginFails) && answers(n) == Commits
    ensures SucceedsAt(answers, cs, n) <==> n <= 5
    ensures n > 5 ==> forall k: nat :: !SucceedsAt(answers, cs, k)
  {
    if n > 5 {
      NeverSucceeds(answers, cs, 5);
    }
  }

  lemma PowersUpToMax()
    ensures forall k: nat :: k <= MAX_RETRIES ==> 1 <= Pow2(k) <= 32
    ensures |WAITS| == MAX_RETRIES + 1
    ensures forall k: nat :: k <= MAX_RETRIES ==> 100 * (Pow2(k) - 1) == WAITS[k] <= 3100
    ensures Pow2(0) == 1 && forall k: nat :: k < MAX_RETRIES ==> Pow2(k + 1) == 2 * Pow2(k)
  {
    assert Pow2(1) == 2 && Pow2(2) == 4 && Pow2(3) == 8 && Pow2(4) == 16 && Pow2(5) == 32;
  }
}
