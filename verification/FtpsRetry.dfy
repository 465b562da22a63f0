/**
 Retrying an FTPS session (src/orchestrator/ftps-session.ts, `withFtpsRetry`). What attempt i would
 do is given by `tries(i)`; the waits between attempts do not appear.
 */
module FtpsRetry {
  import opened Wrappers
  import opened Text

  datatype Attempt = Returned(value: int) | Threw(error: string)

  datatype Final = Success(value: int) | Failure(error: string) | Wedged(cause: string)

  /** A case-insensitive match of an upper-case word. */
  predicate Mentions(error: string, word: string) { Includes(Upper(error), word) }

  predicate IsRefused(error: string) { Mentions(error, "ECONNREFUSED") }

  predicate IsTransient(error: string) {
    || Mentions(error, "TIMEOUT") || Mentions(error, "TIMED OUT") || Mentions(error, "ECONNREFUSED")
    || Mentions(error, "ECONNRESET") || Mentions(error, "EHOSTUNREACH")
  }

  function Attempts(retries: Option<int>): (n: nat)
    ensures n >= 1
  {
    var asked := if retries.Some? then retries.value else 4;
    if asked > 1 then asked else 1
  }

  predicate RefusedAt(tries: int -> Attempt, i: int) { i >= 1 && tries(i).Threw? && IsRefused(tries(i).error) }

  /** The second refusal in a row: the server does not come back by itself. */
  predicate WedgedAt(tries: int -> Attempt, i: int) { RefusedAt(tries, i) && RefusedAt(tries, i - 1) }

  /** A failure that another attempt may cure. */
  predicate Curable(tries: int -> Attempt, i: int) {
    tries(i).Threw? && IsTransient(tries(i).error) && !WedgedAt(tries, i)
  }

  /** Every attempt before the `made`-th was curable; that one is the last and decides the answer. */
  predicate Answers(tries: int -> Attempt, attempts: nat, made: nat, f: Final) {
    && 1 <= made <= attempts
    && (forall i :: 1 <= i < made ==> Curable(tries, i))
    && match tries(made) {
         case Returned(v) => f == Success(v)
         case Threw(e) =>
           if WedgedAt(tries, made) then f == Wedged(e)
           else f == Failure(e) && (made == attempts || !IsTransient(e))
       }
  }

  method WithFtpsRetry(tries: int -> Attempt, retries: Option<int>) returns (f: Final, made: nat)
    ensures Answers(tries, Attempts(retries), made, f)
  {
    var attempts := Attempts(retries);
    var consecutiveRefused := 0;
    made := 1;
    while true
      invariant 1 <= made <= attempts
      invariant forall i :: 1 <= i < made ==> Curable(tries, i)
      invariant 0 <= consecutiveRefused <= 1
      invariant consecutiveRefused == 1 <==> RefusedAt(tries, made - 1)
      decreases attempts - made
    {
      match tries(made) {
        case Returned(v) => return Success(v), made;
        case Threw(e) =>
          consecutiveRefused := if IsRefused(e) then consecutiveRefused + 1 else 0;
          if consecutiveRefused >= 2 { return Wedged(e), made; }
          if made == attempts || !IsTransient(e) { return Failure(e), made; }
          made := made + 1;
      }
    }
  }

  /** The answer is a function of what the attempts do. */
  lemma AnswerIsUnique(tries: int -> Attempt, attempts: nat, m: nat, f: Final, n: nat, g: Final)
    requires Answers(tries, attempts, m, f) && Answers(tries, attempts, n, g)
    ensures m == n && f == g
  {
    assert (m < n ==> Curable(tries, m)) && (n < m ==> Curable(tries, n));
  }

  predicate AllCurable(tries: int -> Attempt, n: int) { forall i :: 1 <= i < n ==> Curable(tries, i) }

  /**
   The call succeeds exactly when some allowed attempt succeeds after curable ones only, and it
   reports a wedged server exactly when two refusals in a row come after curable ones only.
   */
  lemma AnswerExactly(tries: int -> Attempt, attempts: nat, made: nat, f: Final)
    requires Answers(tries, attempts, made, f)
    ensures f.Success? <==> exists i :: 1 <= i <= attempts && tries(i).Returned? && AllCurable(tries, i)
    ensures f.Wedged? <==> exists i :: 2 <= i <= attempts && WedgedAt(tries, i) && AllCurable(tries, i)
  {
    assert AllCurable(tries, made);
    if i :| 1 <= i <= attempts && tries(i).Returned? && AllCurable(tries, i) {
      assert (made < i ==> Curable(tries, made)) && (i < made ==> Curable(tries, i));
    }
    if i :| 2 <= i <= attempts && WedgedAt(tries, i) && AllCurable(tries, i) {
      assert (made < i ==> Curable(tries, made)) && (i < made ==> Curable(tries, i));
    }
  }

  /** More attempts never lose a success, and change the answer only when all of them were curable. */
  lemma MoreAttempts(tries: int -> Attempt, few: nat, m: nat, f: Final, many: nat, n: nat, g: Final)
    requires few <= many && Answers(tries, few, m, f) && Answers(tries, many, n, g)
    ensures m <= n
    ensures f == g || (f.Failure? && IsTransient(f.error) && m == few)
  {
    assert (m < n ==> Curable(tries, m)) && (n < m ==> Curable(tries, n));
  }
}
