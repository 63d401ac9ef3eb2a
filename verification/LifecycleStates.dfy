/** The status names and the transition table of bot/continuous_state_machine.py. */
module LifecycleStates {
  import opened Common
  import opened Text

  datatype Status = Pending | Running | AwaitingInput | RateLimited | Stopped | Completed | Error | Deleted

  function Transitions(s: Status): set<Status> {
    match s
    case Pending => {Running, Stopped, Error, Deleted}
    case Running => {Pending, AwaitingInput, RateLimited, Stopped, Completed, Error, Deleted}
    case AwaitingInput => {Pending, Running, Stopped, Completed, Error, Deleted}
    case RateLimited => {Pending, Running, Stopped, Completed, Error, Deleted}
    case Stopped => {Pending, Running, Completed, Error, Deleted}
    case Completed => {Deleted}
    case Error => {Pending, Running, Stopped, Deleted}
    case Deleted => {}
  }

  function Name(s: Status): string {
    match s
    case Pending => "pending"
    case Running => "running"
    case AwaitingInput => "awaiting_input"
    case RateLimited => "rate_limited"
    case Stopped => "stopped"
    case Completed => "completed"
    case Error => "error"
    case Deleted => "deleted"
  }

  function NormalizeLegacyStatus(text: string): string {
    var s := Strip(text);
    if s == "awaiting-input" then Name(AwaitingInput)
    else if s == "rate-limited" then Name(RateLimited)
    else if s == "paused" then Name(Stopped)
    else if s == "created" then Name(Pending)
    else s
  }

  function Lookup(s: string): Option<Status> {
    if s == Name(Pending) then Some(Pending)
    else if s == Name(Running) then Some(Running)
    else if s == Name(AwaitingInput) then Some(AwaitingInput)
    else if s == Name(RateLimited) then Some(RateLimited)
    else if s == Name(Stopped) then Some(Stopped)
    else if s == Name(Completed) then Some(Completed)
    else if s == Name(Error) then Some(Error)
    else if s == Name(Deleted) then Some(Deleted)
    else None
  }

  function StatusOf(text: string): Option<Status> {
    Lookup(NormalizeLegacyStatus(text))
  }

  datatype Verdict = Allowed | UnknownTarget | UnknownCurrent | NoEdge

  function ValidateTransition(current: string, target: string): Verdict {
    var c, t := NormalizeLegacyStatus(current), NormalizeLegacyStatus(target);
    if c == t then Allowed
    else if Lookup(t).None? then UnknownTarget
    else if Lookup(c).None? then UnknownCurrent
    else if Lookup(t).value !in Transitions(Lookup(c).value) then NoEdge
    else Allowed
  }

  lemma NamesAreTrimmed(s: Status)
    ensures Trimmed(Name(s))
  {
    var n := Name(s);
    assert n[0] in "prascde" && n[|n| - 1] in "gtdr";
  }

  predicate Alias(n: string) {
    n == "awaiting-input" || n == "rate-limited" || n == "paused" || n == "created"
  }

  lemma NamesAreNotAliases(s: Status)
    ensures !Alias(Name(s))
    ensures Lookup(Name(s)) == Some(s)
  {
    var n := Name(s);
    match s
    case Pending => assert n[1] == 'e';
    case Stopped => assert n[0] == 's';
    case Running => assert n[0] == 'r' && n[1] == 'u';
    case RateLimited => assert n[0] == 'r' && n[1] == 'a' && n[4] == '_';
    case AwaitingInput => assert n[0] == 'a' && n[8] == '_';
    case Completed => assert n[0] == 'c' && n[1] == 'o';
    case Error => assert n[0] == 'e';
    case Deleted => assert n[0] == 'd';
  }

  lemma NoAliasNormalises(n: string)
    requires Trimmed(n) && !Alias(n)
    ensures NormalizeLegacyStatus(n) == n
  {
  }

  lemma NormalForm(text: string)
    ensures var n := NormalizeLegacyStatus(text); Trimmed(n) && !Alias(n)
  {
    if Alias(Strip(text)) {
      var s := AliasTarget(Strip(text));
      NamesAreTrimmed(s);
      NamesAreNotAliases(s);
    }
  }

  lemma AliasTarget(n: string) returns (s: Status)
    requires Alias(n)
    ensures s == if n == "awaiting-input" then AwaitingInput
                 else if n == "rate-limited" then RateLimited
                 else if n == "paused" then Stopped else Pending
    ensures forall text :: Strip(text) == n ==> NormalizeLegacyStatus(text) == Name(s)
  {
    s := if n == "awaiting-input" then AwaitingInput
         else if n == "rate-limited" then RateLimited
         else if n == "paused" then Stopped else Pending;
  }

  lemma {:induction false} NormalizeIdempotent(text: string)
    ensures NormalizeLegacyStatus(NormalizeLegacyStatus(text)) == NormalizeLegacyStatus(text)
  {
    NormalForm(text);
    NoAliasNormalises(NormalizeLegacyStatus(text));
  }

  predicate FollowsEdge(c: Option<Status>, t: Option<Status>) {
    t == c || (c.Some? && t.Some? && t.value in Transitions(c.value))
  }

  lemma {:induction false} AllowedStep(current: string, target: string)
    requires ValidateTransition(current, target).Allowed?
    ensures FollowsEdge(StatusOf(current), StatusOf(target))
  {
  }

  lemma {:induction false} TerminalChain(chain: seq<Option<Status>>, i: nat, j: nat)
    requires forall k :: 0 <= k < |chain| - 1 ==> FollowsEdge(chain[k], chain[k + 1])
    requires i <= j < |chain|
    ensures chain[i] == Some(Deleted) ==> chain[j] == Some(Deleted)
    ensures chain[i] == Some(Completed) ==> chain[j] == Some(Completed) || chain[j] == Some(Deleted)
  {
    if i < j {
      TerminalChain(chain, i, j - 1);
      assert FollowsEdge(chain[j - 1], chain[j - 1 + 1]);
    }
  }

  /** Along any chain of allowed transitions a completed task can only become deleted, and a deleted one
      stays deleted, whatever legacy spellings the chain uses. */
  lemma {:induction false} TerminalForEver(path: seq<string>, i: nat, j: nat)
    requires forall k :: 0 <= k < |path| - 1 ==> ValidateTransition(path[k], path[k + 1]).Allowed?
    requires i <= j < |path|
    ensures StatusOf(path[i]) == Some(Deleted) ==> StatusOf(path[j]) == Some(Deleted)
    ensures StatusOf(path[i]) == Some(Completed) ==>
              StatusOf(path[j]) == Some(Completed) || StatusOf(path[j]) == Some(Deleted)
  {
    var chain := seq(|path|, k requires 0 <= k < |path| => StatusOf(path[k]));
    forall k | 0 <= k < |path| - 1
      ensures FollowsEdge(chain[k], chain[k + 1])
    {
      AllowedStep(path[k], path[k + 1]);
    }
    TerminalChain(chain, i, j);
  }

  // ---- The vocabulary and the table, told the other way round ----

  /** The alias older versions wrote for a status, if there was one. */
  function AliasOf(s: Status): Option<string> {
    match s
    case Pending => Some("created")
    case AwaitingInput => Some("awaiting-input")
    case RateLimited => Some("rate-limited")
    case Stopped => Some("paused")
    case _ => None
  }

  /** The accepted spellings of a status. */
  predicate Spelt(n: string, s: Status) {
    match s
    case Pending => n == "pending" || n == "created"
    case Running => n == "running"
    case AwaitingInput => n == "awaiting_input" || n == "awaiting-input"
    case RateLimited => n == "rate_limited" || n == "rate-limited"
    case Stopped => n == "stopped" || n == "paused"
    case Completed => n == "completed"
    case Error => n == "error"
    case Deleted => n == "deleted"
  }

  lemma AliasIsRead(text: string, s: Status)
    requires AliasOf(s) == Some(Strip(text))
    ensures NormalizeLegacyStatus(text) == Name(s)
  {
    var n := Strip(text);
    match s
    case Pending => assert n[0] == 'c';
    case AwaitingInput => assert n[0] == 'a';
    case RateLimited => assert n[0] == 'r';
    case Stopped => assert n[0] == 'p';
    case _ =>
  }

  lemma SpellingIsRead(text: string, s: Status)
    requires Spelt(Strip(text), s)
    ensures StatusOf(text) == Some(s)
  {
    NamesAreNotAliases(s);
    if AliasOf(s) == Some(Strip(text)) {
      AliasIsRead(text, s);
    } else {
      NoAliasNormalises(Strip(text));
    }
  }

  lemma LookupFinds(n: string)
    ensures match Lookup(n) case Some(s) => n == Name(s) case None => true
  {
  }

  lemma {:induction false} AliasSpelt(text: string) returns (s: Status)
    requires Alias(Strip(text))
    ensures Spelt(Strip(text), s) && StatusOf(text) == Some(s)
  {
    s := AliasTarget(Strip(text));
    NamesAreNotAliases(s);
  }

  lemma {:induction false} ReadIsSpelling(text: string)
    ensures match StatusOf(text) case Some(s) => Spelt(Strip(text), s) case None => true
  {
    if Alias(Strip(text)) {
      var s := AliasSpelt(text);
    } else {
      NoAliasNormalises(Strip(text));
      LookupFinds(Strip(text));
    }
  }

  /** A text, trimmed, means a status exactly if it is one of that status's spellings; so no text means two. */
  lemma StatusOfIff(text: string, s: Status)
    ensures StatusOf(text) == Some(s) <==> Spelt(Strip(text), s)
  {
    ReadIsSpelling(text);
    if Spelt(Strip(text), s) {
      SpellingIsRead(text, s);
    }
  }

  predicate Ended(s: Status) {
    s == Completed || s == Deleted
  }

  /** The table by target: deletion is open to all but the deleted; everything that has not ended can fail,
      run, and be put back to pending; completion needs a run behind it, and only a run can wait or be limited. */
  lemma TableByTarget(from: Status, to: Status)
    ensures to in Transitions(from) <==>
            from != to && match to
                          case Deleted => true
                          case Error => !Ended(from)
                          case Running => !Ended(from)
                          case Pending => !Ended(from)
                          case Stopped => !Ended(from)
                          case Completed => from in {Running, AwaitingInput, RateLimited, Stopped}
                          case _ => from == Running
  {
  }

  /** The verdict on a change, told from what the two texts mean. */
  lemma {:induction false} VerdictIff(current: string, target: string)
    ensures var v, c, t := ValidateTransition(current, target), StatusOf(current), StatusOf(target);
            if NormalizeLegacyStatus(current) == NormalizeLegacyStatus(target) then v.Allowed?
            else if t.None? then v.UnknownTarget?
            else if c.None? then v.UnknownCurrent?
            else if t.value in Transitions(c.value) then v.Allowed? else v.NoEdge?
  {
  }
}
