/** generateQuiz of src/app/functions.js: a coin-gated call to the
    generative model. The gate checks, in order, the prompt, the API key, the
    session and the principal's stored coin balance; only a parsed model
    reply is charged, and the charge is the one write the operation makes.
    The backend (session lookup, the profiles table, the model and
    JSON.parse) is an oracle: a Backend value says what each call answers. */
module QuizGeneration {
  import opened JsSemantics

  /** Coins one generation costs, and the least balance that may generate. */
  const Cost: int := 10

  const PromptRequired := "Prompt is required to generate a quiz."
  const ApiKeyMissing := "Gemini API key is not configured. Please set NEXT_PUBLIC_GEMINI_API_KEY."
  const LoginRequired := "Please log in to generate a quiz."
  const BalanceUnavailable := "Failed to fetch user coin balance."
  const InsufficientCoins := "Insufficient coins. You need at least 10 coins to generate a quiz."
  const ChargeNotRecorded := "Quiz generated, but failed to deduct coins. Please contact support."
  const Unexpected := "An unexpected error occurred while generating the quiz."

  /** A parsed JSON value. The quiz is whatever JSON.parse returned: its
      shape is never checked. */
  datatype Json =
    | JNull
    | JBool(b: bool)
    | JNumber(n: real)
    | JString(s: string)
    | JArray(items: seq<Json>)
    | JObject(members: seq<(string, Json)>)

  /** What client.auth.getSession() yields. */
  datatype SessionReply = Session(userId: string) | NoSession | SessionThrows

  /** What the coin_balance select yields, apart from the stored value:
      an error result, or a thrown exception. A missing row is read off
      the table itself. */
  datatype BalanceReply = BalanceRead | BalanceError | BalanceThrows

  /** The model's reply text, and what JSON.parse makes of it (None: it throws). */
  datatype ModelReply = ModelText(raw: string, parsed: Option<Json>) | ModelThrows

  datatype WriteReply = WriteApplied | WriteError | WriteThrows

  datatype Backend = Backend(
    apiKey: string,
    session: SessionReply,
    balanceRead: BalanceReply,
    model: ModelReply,
    write: WriteReply)

  /** The external calls generateQuiz makes, in the order it makes them. */
  datatype Call =
    | GetSession
    | ReadBalance(userId: string)
    | InvokeModel(prompt: string, numQuestions: int, difficulty: string)
    | WriteBalance(userId: string, value: int)
  {
    /** Where the call stands in generateQuiz's sequence of steps. */
    function Step(): nat {
      match this
      case GetSession => 0
      case ReadBalance(_) => 1
      case InvokeModel(_, _, _) => 2
      case WriteBalance(_, _) => 3
    }
  }

  /** The resolved value ({success, quiz, newBalance, error, status}) or the
      rejection of the promise generateQuiz returns. */
  datatype Outcome =
    | Generated(quiz: Json, newBalance: int)
    | Refused(status: int, error: string)
    | ChargeFailed(quiz: Json)
    | Threw(message: string)
  {
    predicate Success() { Generated? }

    /** The HTTP status of the resolved value, when it carries one. */
    function Status(): Option<int> {
      match this
      case Refused(status, _) => Some(status)
      case ChargeFailed(_) => Some(500)
      case _ => None
    }

    /** The error field of the resolved value. */
    function ErrorText(): Option<string> {
      match this
      case Refused(_, error) => Some(error)
      case ChargeFailed(_) => Some(ChargeNotRecorded)
      case _ => None
    }
  }

  /** One run: its outcome, its calls and the coin balances afterwards. */
  datatype Run = Run(outcome: Outcome, calls: seq<Call>, coins: map<string, int>)

  /** Everything before the model call passed: a prompt, a key, a signed-in
      user with a readable profile row holding at least Cost coins. */
  predicate ReachesModel(coins: map<string, int>, prompt: string, env: Backend) {
    && prompt != ""
    && env.apiKey != ""
    && env.session.Session?
    && env.balanceRead.BalanceRead?
    && env.session.userId in coins
    && coins[env.session.userId] >= Cost
  }

  /** The model answered with text that JSON.parse accepts. */
  predicate ReachesCharge(coins: map<string, int>, prompt: string, env: Backend) {
    ReachesModel(coins, prompt, env) && env.model.ModelText? && env.model.parsed.Some?
  }

  /** The result of generateQuiz(prompt, numQuestions, difficulty) run
      against the given coin balances and backend. */
  function Generate(coins: map<string, int>, prompt: string, numQuestions: int, difficulty: string, env: Backend): (run: Run)
    // the prompt and key checks come first and touch nothing
    ensures prompt == "" ==> run == Run(Threw(PromptRequired), [], coins)
    ensures prompt != "" && env.apiKey == "" ==> run == Run(Threw(ApiKeyMissing), [], coins)
    // the denial paths, each exactly when its check is the first to fail
    ensures run.outcome == Refused(401, LoginRequired)
        <==> prompt != "" && env.apiKey != "" && env.session.NoSession?
    ensures run.outcome == Refused(500, BalanceUnavailable)
        <==> prompt != "" && env.apiKey != "" && env.session.Session?
             && (env.balanceRead.BalanceError? || (env.balanceRead.BalanceRead? && env.session.userId !in coins))
    ensures run.outcome == Refused(403, InsufficientCoins)
        <==> prompt != "" && env.apiKey != "" && env.session.Session? && env.balanceRead.BalanceRead?
             && env.session.userId in coins && coins[env.session.userId] < Cost
    // the model is asked once exactly when every check passed, and only then
    ensures forall c :: c in run.calls && c.InvokeModel? ==>
              ReachesModel(coins, prompt, env) && c == InvokeModel(prompt, numQuestions, difficulty)
    ensures ReachesModel(coins, prompt, env) ==> InvokeModel(prompt, numQuestions, difficulty) in run.calls
    ensures forall c :: c in run.calls && c.WriteBalance? ==>
              ReachesCharge(coins, prompt, env)
              && c == WriteBalance(env.session.userId, coins[env.session.userId] - Cost)
    ensures ReachesCharge(coins, prompt, env) ==>
              WriteBalance(env.session.userId, coins[env.session.userId] - Cost) in run.calls
    // a thrown model call or an unparsable reply is reported as the generic error
    ensures ReachesModel(coins, prompt, env) && !ReachesCharge(coins, prompt, env)
        ==> run.outcome == Threw(Unexpected)
    // so is any other exception inside the try block
    ensures prompt != "" && env.apiKey != ""
            && (env.session.SessionThrows?
                || (env.session.Session? && env.balanceRead.BalanceThrows?)
                || (ReachesCharge(coins, prompt, env) && env.write.WriteThrows?))
        ==> run.outcome == Threw(Unexpected)
    ensures run.outcome.Threw? && prompt != "" && env.apiKey != "" ==> run.outcome.message == Unexpected
    // the resolved value's status and error fields
    ensures run.outcome.Refused? ==>
              run.outcome in {Refused(401, LoginRequired), Refused(500, BalanceUnavailable), Refused(403, InsufficientCoins)}
    // the charge
    ensures run.outcome.Generated? <==> ReachesCharge(coins, prompt, env) && env.write.WriteApplied?
    ensures run.outcome.Generated? ==>
              && run.outcome.quiz == env.model.parsed.value
              && run.outcome.newBalance == coins[env.session.userId] - Cost
              && run.outcome.newBalance >= 0
              && run.coins == coins[env.session.userId := run.outcome.newBalance]
    ensures !run.outcome.Generated? ==> run.coins == coins
    ensures run.outcome.ChargeFailed? <==> ReachesCharge(coins, prompt, env) && env.write.WriteError?
    ensures run.outcome.ChargeFailed? ==>
              && run.outcome.quiz == env.model.parsed.value
              && run.outcome.Status() == Some(500) && run.outcome.ErrorText() == Some(ChargeNotRecorded)
  {
    if prompt == "" then Run(Threw(PromptRequired), [], coins)
    else if env.apiKey == "" then Run(Threw(ApiKeyMissing), [], coins)
    else match env.session
      case SessionThrows => Run(Threw(Unexpected), [GetSession], coins)
      case NoSession => Run(Refused(401, LoginRequired), [GetSession], coins)
      case Session(user) =>
        var read := [GetSession, ReadBalance(user)];
        if env.balanceRead.BalanceThrows? then Run(Threw(Unexpected), read, coins)
        else if env.balanceRead.BalanceError? || user !in coins then
          Run(Refused(500, BalanceUnavailable), read, coins)
        else if coins[user] < Cost then Run(Refused(403, InsufficientCoins), read, coins)
        else
          var asked := read + [InvokeModel(prompt, numQuestions, difficulty)];
          match env.model
          case ModelThrows => Run(Threw(Unexpected), asked, coins)
          case ModelText(_, None) => Run(Threw(Unexpected), asked, coins)
          case ModelText(_, Some(quiz)) =>
            var charged := asked + [WriteBalance(user, coins[user] - Cost)];
            match env.write
            case WriteThrows => Run(Threw(Unexpected), charged, coins)
            case WriteError => Run(ChargeFailed(quiz), charged, coins)
            case WriteApplied =>
              Run(Generated(quiz, coins[user] - Cost), charged, coins[user := coins[user] - Cost])
  }

  /** The calls are made one step after another, each at most once: the
      session lookup whenever the prompt and key checks pass, then the
      balance read for the session's user. Together with Generate's own
      contract this fixes the whole trace. */
  lemma CallsInOrder(coins: map<string, int>, prompt: string, numQuestions: int, difficulty: string, env: Backend)
    ensures var calls := Generate(coins, prompt, numQuestions, difficulty, env).calls;
      && (forall i :: 0 <= i < |calls| ==> calls[i].Step() == i)
      && (GetSession in calls <==> prompt != "" && env.apiKey != "")
      && (forall c :: c in calls && c.ReadBalance? ==> env.session == Session(c.userId))
      && (prompt != "" && env.apiKey != "" && env.session.Session? ==> ReadBalance(env.session.userId) in calls)
  {
  }

  /** The profiles table's coin_balance column, keyed by user id. */
  class CoinLedger {
    var coins: map<string, int>

    constructor (initial: map<string, int>)
      ensures coins == initial
    {
      coins := initial;
    }

    /** generateQuiz, step by step with its early returns. */
    method GenerateQuiz(prompt: string, numQuestions: int, difficulty: string, env: Backend)
      returns (outcome: Outcome, calls: seq<Call>)
      modifies this
      ensures Run(outcome, calls, coins) == Generate(old(coins), prompt, numQuestions, difficulty, env)
      ensures outcome.Generated? ==>
                && env.session.Session?
                && coins == old(coins)[env.session.userId := old(coins)[env.session.userId] - Cost]
                && outcome.newBalance == coins[env.session.userId] >= 0
      ensures !outcome.Generated? ==> coins == old(coins)
    {
      calls := [];
      if prompt == "" {
        outcome := Threw(PromptRequired);
        return;
      }
      if env.apiKey == "" {
        outcome := Threw(ApiKeyMissing);
        return;
      }
      // Inside the try block: every exception becomes Threw(Unexpected).
      calls := calls + [GetSession];
      if env.session.SessionThrows? {
        outcome := Threw(Unexpected);
        return;
      }
      if env.session.NoSession? {
        outcome := Refused(401, LoginRequired);
        return;
      }
      var user := env.session.userId;
      calls := calls + [ReadBalance(user)];
      if env.balanceRead.BalanceThrows? {
        outcome := Threw(Unexpected);
        return;
      }
      if env.balanceRead.BalanceError? || user !in coins {
        outcome := Refused(500, BalanceUnavailable);
        return;
      }
      var balance := coins[user];
      if balance < Cost {
        outcome := Refused(403, InsufficientCoins);
        return;
      }
      calls := calls + [InvokeModel(prompt, numQuestions, difficulty)];
      if env.model.ModelThrows? {
        outcome := Threw(Unexpected);
        return;
      }
      if env.model.parsed.None? {
        // JSON.parse threw; the invalid-format error this raises is caught by
        // the outer catch, which reports the generic message.
        outcome := Threw(Unexpected);
        return;
      }
      var quiz := env.model.parsed.value;
      calls := calls + [WriteBalance(user, balance - Cost)];
      if env.write.WriteThrows? {
        outcome := Threw(Unexpected);
        return;
      }
      if env.write.WriteError? {
        outcome := ChargeFailed(quiz);
        return;
      }
      coins := coins[user := balance - Cost];
      outcome := Generated(quiz, balance - Cost);
    }
  }

  // ---------------------------------------------------------------------
  // Successive generations: the ledger balances exactly.

  datatype Request = Request(prompt: string, numQuestions: int, difficulty: string, env: Backend)

  /** The balances after running the requests one after another. */
  function RunAll(coins: map<string, int>, reqs: seq<Request>): map<string, int>
    decreases |reqs|
  {
    if reqs == [] then coins
    else
      var r := reqs[0];
      RunAll(Generate(coins, r.prompt, r.numQuestions, r.difficulty, r.env).coins, reqs[1..])
  }

  /** How many of the requests ended charged to user u. */
  function ChargesTo(coins: map<string, int>, reqs: seq<Request>, u: string): nat
    decreases |reqs|
  {
    if reqs == [] then 0
    else
      var r := reqs[0];
      var run := Generate(coins, r.prompt, r.numQuestions, r.difficulty, r.env);
      (if run.outcome.Generated? && r.env.session == Session(u) then 1 else 0)
        + ChargesTo(run.coins, reqs[1..], u)
  }

  /** Every coin that leaves a balance is a successful generation's charge,
      no balance is created or removed, and a balance that starts
      non-negative never goes below zero. */
  lemma {:induction false} LedgerBalances(coins: map<string, int>, reqs: seq<Request>, u: string)
    requires u in coins
    ensures RunAll(coins, reqs).Keys == coins.Keys
    ensures RunAll(coins, reqs)[u] == coins[u] - Cost * ChargesTo(coins, reqs, u)
    ensures coins[u] >= 0 ==> RunAll(coins, reqs)[u] >= 0
    decreases |reqs|
  {
    if reqs != [] {
      var r := reqs[0];
      var run := Generate(coins, r.prompt, r.numQuestions, r.difficulty, r.env);
      assert run.coins.Keys == coins.Keys;
      LedgerBalances(run.coins, reqs[1..], u);
    }
  }
}
