/** app.py `webhook`: reducing an incoming alert to a `(symbol, direction, action)`
    signal. The JSON body and the `enable_trading` switch are inputs; the reply is the
    status code with its message, or the signal handed on to `process_signal` (on a
    thread of its own in the source; see the Ledger module for what it does). */
module Webhook {
  import opened Wrappers
  import opened Json
  import Text

  /** The arguments `process_signal` is started with. */
  datatype Signal = Signal(symbol: string, direction: string, action: string)

  /** The reply. `Crashed` is the catch-all handler's status 500, carrying the kind of
      exception that reached it. */
  datatype Outcome =
    | Accepted(signal: Signal, message: string)
    | Rejected(code: int, message: string)
    | Crashed(error: PyError)

  const AcceptedPrefix := "Signal received and processing: "

  /** `".P" in symbol` followed by `symbol.replace(".P", "")`: one pass that drops the
      perpetual-contract marker wherever it occurs. */
  function CleanSymbol(symbol: string): string {
    if Text.Contains(symbol, ".P") then Text.RemoveAll(symbol, ".P") else symbol
  }

  /** The checks every candidate signal goes through once it has three components: the
      marker is dropped from the symbol, no component may be empty, and the direction
      and the action must be one of two words each, compared and passed on in lower
      case. The reply's message repeats the components as they arrived. */
  function CheckComponents(symbol: string, direction: string, action: string): (r: Outcome)
    ensures r.Accepted? ==> r.signal.symbol != ""
    ensures r.Accepted? ==> (r.signal.direction == "long" || r.signal.direction == "short")
                            && (r.signal.action == "open" || r.signal.action == "close")
    ensures r.Accepted? ==> Text.StartsWith(r.message, AcceptedPrefix)
    ensures r.Accepted? <==> CleanSymbol(symbol) != "" && direction != "" && action != ""
                             && Text.Lower(direction) in ["long", "short"] && Text.Lower(action) in ["open", "close"]
    ensures r.Accepted? ==> r.signal == Signal(CleanSymbol(symbol), Text.Lower(direction), Text.Lower(action))
                            && r.message == AcceptedPrefix + CleanSymbol(symbol) + "/" + direction + "/" + action
    ensures !r.Crashed? && (r.Rejected? ==> r.code == 400)
    ensures r == Rejected(400, "Invalid signal components")
            <==> CleanSymbol(symbol) == "" || direction == "" || action == ""
    ensures r == Rejected(400, "Invalid direction")
            <==> CleanSymbol(symbol) != "" && direction != "" && action != ""
                 && Text.Lower(direction) !in ["long", "short"]
    ensures r == Rejected(400, "Invalid action")
            <==> CleanSymbol(symbol) != "" && direction != "" && action != ""
                 && Text.Lower(direction) in ["long", "short"] && Text.Lower(action) !in ["open", "close"]
  {
    var s := CleanSymbol(symbol);
    if s == "" || direction == "" || action == "" then Rejected(400, "Invalid signal components")
    else if Text.Lower(direction) != "long" && Text.Lower(direction) != "short" then Rejected(400, "Invalid direction")
    else if Text.Lower(action) != "open" && Text.Lower(action) != "close" then Rejected(400, "Invalid action")
    else
      var message := AcceptedPrefix + s + "/" + direction + "/" + action;
      assert message[..|AcceptedPrefix|] == AcceptedPrefix;
      Accepted(Signal(s, Text.Lower(direction), Text.Lower(action)), message)
  }

  /** Components that already pass every check are handed on as they are. */
  lemma CheckComponentsAcceptsValid(symbol: string, direction: string, action: string)
    requires symbol != "" && !Text.Contains(symbol, ".P")
    requires (direction == "long" || direction == "short") && (action == "open" || action == "close")
    ensures CheckComponents(symbol, direction, action)
      == Accepted(Signal(symbol, direction, action), AcceptedPrefix + symbol + "/" + direction + "/" + action)
  {
    LowerOfChoices(direction, action);
  }

  /** A value the last-resort search accepts: a string holding a `/` that splits into
      exactly three parts. */
  predicate IsSlashTriple(v: Json) {
    v.JStr? && Text.Contains(v.s, "/") && |Text.Split(v.s, '/')| == 3
  }

  /** The first member value, in document order, that the search accepts. */
  function FirstSlashTriple(fields: seq<(string, Json)>): (r: Option<string>)
    ensures r.None? <==> forall i :: 0 <= i < |fields| ==> !IsSlashTriple(fields[i].1)
    ensures r.Some? ==> exists i :: 0 <= i < |fields| && fields[i].1 == JStr(r.value) && IsSlashTriple(fields[i].1)
                          && forall j :: 0 <= j < i ==> !IsSlashTriple(fields[j].1)
  {
    if fields == [] then None
    else if IsSlashTriple(fields[0].1) then Some(fields[0].1.s)
    else
      var r := FirstSlashTriple(fields[1..]);
      assert forall i :: 1 <= i < |fields| ==> fields[i] == fields[1..][i - 1];
      assert r.Some? ==> exists i :: 0 <= i < |fields| && fields[i].1 == JStr(r.value) && IsSlashTriple(fields[i].1)
                          && forall j :: 0 <= j < i ==> !IsSlashTriple(fields[j].1) by {
        if r.Some? {
          var k :| 0 <= k < |fields[1..]| && fields[1..][k].1 == JStr(r.value) && IsSlashTriple(fields[1..][k].1)
                   && forall j :: 0 <= j < k ==> !IsSlashTriple(fields[1..][j].1);
          assert forall j :: 0 <= j < k + 1 ==> !IsSlashTriple(fields[j].1) by {
            forall j | 0 <= j < k + 1
              ensures !IsSlashTriple(fields[j].1)
            {
              if j > 0 {
                assert fields[j] == fields[1..][j - 1];
              }
            }
          }
          assert fields[k + 1] == fields[1..][k];
        }
      }
      r
  }

  /** Where a body without a top-level symbol takes its signal from, in priority order:
      the `signal` member; `strategy.alert_message`; `message`; `text`; the first string
      value that splits on `/` into three parts. `None` is no source at all. Asking a
      `strategy` that is null, a boolean or a number for `alert_message` raises, and so
      does subscripting a string or list `strategy` that holds it. This is the
      specification the method `ChooseSignal` is proved against. */
  function SignalSource(fields: seq<(string, Json)>): Result<Option<Json>, PyError> {
    if HasKey(fields, "signal") then Success(Get(fields, "signal"))
    else
      var strategy := if HasKey(fields, "strategy") then Get(fields, "strategy").value else JNull;
      var asked := if HasKey(fields, "strategy") then PyIn("alert_message", strategy) else Some(false);
      if asked.None? then Failure(TypeError)
      else if asked.value && !strategy.JObj? then Failure(TypeError)
      else if asked.value then Success(Get(strategy.fields, "alert_message"))
      else if HasKey(fields, "message") then Success(Get(fields, "message"))
      else if HasKey(fields, "text") then Success(Get(fields, "text"))
      else
        match FirstSlashTriple(fields)
        case Some(s) => Success(Some(JStr(s)))
        case None => Success(None)
  }

  /** The whole handler as one function of the request body (`None` when it is not
      JSON) and the trading switch: the specification the method `HandleWebhook` is
      proved against. */
  function Normalize(body: Option<Json>, enableTrading: bool): Outcome {
    if body.None? || !Truthy(body.value) then Rejected(400, "Invalid JSON")
    else if !enableTrading then Rejected(200, "Trading is disabled")
    else if !body.value.JObj? then Crashed(AttributeError)
    else
      var fields := body.value.fields;
      var symbol := GetOr(fields, "symbol", JStr(""));
      var rawAction := GetOr(fields, "action", JStr(""));
      if !rawAction.JStr? then Crashed(AttributeError)
      else if !Truthy(symbol) then FromSignalText(fields)
      else FromTopLevelSymbol(symbol, Text.Lower(rawAction.s))
  }

  /** A body without a top-level symbol: the chosen signal must be a non-empty string
      of three `/`-separated components. */
  function FromSignalText(fields: seq<(string, Json)>): Outcome {
    match SignalSource(fields)
    case Failure(e) => Crashed(e)
    case Success(signal) =>
      if signal.None? || !Truthy(signal.value) then Rejected(400, "No signal provided")
      else if !signal.value.JStr? then Crashed(AttributeError)
      else
        var parts := Text.Split(signal.value.s, '/');
        if |parts| != 3 then Rejected(400, "Invalid signal format")
        else CheckComponents(parts[0], parts[1], parts[2])
  }

  /** A body with a top-level symbol: only a lower-cased action of `buy` opens a long;
      every other action closes a short. A number or boolean symbol makes the `.P`
      test raise `TypeError`. */
  function FromTopLevelSymbol(symbol: Json, action: string): Outcome {
    var buy := action == "buy";
    match symbol
    case JStr(s) => CheckComponents(s, if buy then "long" else "short", if buy then "open" else "close")
    case _ => if symbol.JNum? || symbol.JBool? then Crashed(TypeError) else Crashed(AttributeError)
  }

  /** The part of `webhook()` that picks the signal string of a body without a top-level
      symbol: `signal`, then a `strategy` object's `alert_message`, then `message`, then
      `text`, and as the last resort the first member value that splits into three
      `/`-separated parts. */
  method ChooseSignal(fields: seq<(string, Json)>) returns (r: Result<Option<Json>, PyError>)
    ensures r == SignalSource(fields)
  {
    var signal: Option<Json> := None;
    var takeStrategy := false;
    var strategy := JNull;
    if !HasKey(fields, "signal") && HasKey(fields, "strategy") {
      strategy := Get(fields, "strategy").value;
      var asked := PyIn("alert_message", strategy);
      if asked.None? {
        return Failure(TypeError);
      }
      takeStrategy := asked.value;
    }

    if HasKey(fields, "signal") {
      signal := Get(fields, "signal");
    } else if takeStrategy {
      if !strategy.JObj? {
        return Failure(TypeError);
      }
      signal := Get(strategy.fields, "alert_message");
    } else if HasKey(fields, "message") {
      signal := Get(fields, "message");
    } else if HasKey(fields, "text") {
      signal := Get(fields, "text");
    } else {
      signal := ScanForTriple(fields);
    }
    return Success(signal);
  }

  /** The last-resort scan: the first member value that is a string splitting into
      three `/`-separated parts, in document order. */
  method ScanForTriple(fields: seq<(string, Json)>) returns (found: Option<Json>)
    ensures FirstSlashTriple(fields).None? ==> found == None
    ensures FirstSlashTriple(fields).Some? ==> found == Some(JStr(FirstSlashTriple(fields).value))
  {
    var i := 0;
    while i < |fields|
      invariant 0 <= i <= |fields|
      invariant FirstSlashTriple(fields[i..]) == FirstSlashTriple(fields)
    {
      var value := fields[i].1;
      if value.JStr? && Text.Contains(value.s, "/") && |Text.Split(value.s, '/')| == 3 {
        assert fields[i..][0] == fields[i];
        return Some(value);
      }
      assert fields[i..][1..] == fields[i + 1..];
      i := i + 1;
    }
    assert fields[i..] == [];
    return None;
  }

  /** `webhook()` as the source runs it: a chain of early returns and, as the last
      resort, a scan over the body's members that stops at the first acceptable one. */
  method HandleWebhook(body: Option<Json>, enableTrading: bool) returns (outcome: Outcome)
    ensures outcome == Normalize(body, enableTrading)
  {
    if body.None? || !Truthy(body.value) {
      return Rejected(400, "Invalid JSON");
    }
    if !enableTrading {
      return Rejected(200, "Trading is disabled");
    }
    var data := body.value;
    if !data.JObj? {
      return Crashed(AttributeError);
    }
    var symbol := GetOr(data.fields, "symbol", JStr(""));
    var rawAction := GetOr(data.fields, "action", JStr(""));
    if !rawAction.JStr? {
      return Crashed(AttributeError);
    }
    var action := Text.Lower(rawAction.s);
    var direction: string;

    if !Truthy(symbol) {
      var source := ChooseSignal(data.fields);
      if source.Failure? {
        return Crashed(source.error);
      }
      var signal := source.value;

      if signal.None? || !Truthy(signal.value) {
        return Rejected(400, "No signal provided");
      }
      if !signal.value.JStr? {
        return Crashed(AttributeError);
      }
      var parts := Text.Split(signal.value.s, '/');
      if |parts| != 3 {
        return Rejected(400, "Invalid signal format");
      }
      outcome := CheckComponents(parts[0], parts[1], parts[2]);
    } else {
      direction := if action == "buy" then "long" else "short";
      var tradeAction := if action == "buy" then "open" else "close";
      match symbol
      case JStr(s) =>
        outcome := CheckComponents(s, direction, tradeAction);
      case _ =>
        outcome := if symbol.JNum? || symbol.JBool? then Crashed(TypeError) else Crashed(AttributeError);
    }
  }

  /** Nothing is parsed before the two gates: a body that is not JSON or is empty is
      refused with 400, and with trading disabled every JSON body gets 200 with the
      error message. */
  lemma GatesComeFirst(body: Option<Json>, enableTrading: bool)
    ensures body.None? || !Truthy(body.value) ==> Normalize(body, enableTrading) == Rejected(400, "Invalid JSON")
    ensures body.Some? && Truthy(body.value) && !enableTrading ==>
      Normalize(body, enableTrading) == Rejected(200, "Trading is disabled")
  {
  }

  /** Whatever the body, an accepted signal came through both gates, has a non-empty
      symbol, a direction of `long` or `short` and an action of `open` or `close`. */
  lemma AcceptedSignalIsWellFormed(body: Option<Json>, enableTrading: bool)
    requires Normalize(body, enableTrading).Accepted?
    ensures enableTrading && body.Some? && body.value.JObj?
    ensures var sig := Normalize(body, enableTrading).signal;
      sig.symbol != "" && (sig.direction == "long" || sig.direction == "short")
      && (sig.action == "open" || sig.action == "close")
    ensures Text.StartsWith(Normalize(body, enableTrading).message, AcceptedPrefix)
  {
    var fields := body.value.fields;
    if !Truthy(GetOr(fields, "symbol", JStr(""))) {
      var signal := SignalSource(fields).value;
      var parts := Text.Split(signal.value.s, '/');
      assert FromSignalText(fields) == CheckComponents(parts[0], parts[1], parts[2]);
    }
  }

  lemma ContainsCons(c: char, r: string, needle: string)
    requires |needle| > 0
    ensures Text.Contains([c] + r, needle) <==> Text.StartsWith([c] + r, needle) || Text.Contains(r, needle)
  {
    assert ([c] + r)[1..] == r;
  }

  /** A symbol with no `..` in it leaves the marker step with no `.P` left: the single
      pass can only join a new `.P` across a removed one when a `.` stands right before
      a removed `.P`. */
  lemma {:induction false} MarkerRemovedWithoutDoubleDot(s: string)
    requires !Text.Contains(s, "..")
    ensures !Text.Contains(Text.RemoveAll(s, ".P"), ".P")
    decreases |s|
  {
    if s == [] {
      assert Text.RemoveAll(s, ".P") == [];
    } else if Text.StartsWith(s, ".P") {
      var t := s[1..];
      assert !Text.Contains(t, "..");
      assert t[1..] == s[2..];
      assert !Text.Contains(s[2..], "..");
      MarkerRemovedWithoutDoubleDot(s[2..]);
    } else {
      var t := s[1..];
      assert !Text.Contains(t, "..");
      MarkerRemovedWithoutDoubleDot(t);
      var rest := Text.RemoveAll(t, ".P");
      assert Text.RemoveAll(s, ".P") == [s[0]] + rest;
      ContainsCons(s[0], rest, ".P");
      if s[0] == '.' && |rest| > 0 {
        assert |t| > 0 && t[0] != 'P' && t[0] != '.' by {
          assert !Text.StartsWith(s, "..");
        }
        assert !Text.StartsWith(t, ".P");
        assert rest == [t[0]] + Text.RemoveAll(t[1..], ".P");
      }
    }
  }

  /** A symbol with `..` can keep a `.P`: `..PP` loses the inner `.P` and the outer
      characters close up into a new one. */
  lemma MarkerSurvivesDoubleDot()
    ensures Text.RemoveAll("..PP", ".P") == ".P"
  {
    var s := "..PP";
    assert s[..2][1] != ".P"[1];
    assert !Text.StartsWith(s, ".P");
    assert s[1..] == ".PP" && Text.StartsWith(s[1..], ".P");
    assert s[1..][2..] == "P";
    assert "P"[1..] == "";
    assert Text.RemoveAll("P", ".P") == "P";
  }

  /** The body the test sender posts for `--type basic`. */
  function BasicPayload(symbol: string, direction: string, action: string): Json {
    JObj([("signal", JStr(symbol + "/" + direction + "/" + action))])
  }

  /** The body the test sender posts for `--type tradingview`. */
  function TradingViewPayload(symbol: string, direction: string, action: string): Json {
    JObj([("strategy", JObj([("alert_message", JStr(symbol + "/" + direction + "/" + action))]))])
  }

  /** The body the test sender posts for `--type pipedream`: the direction becomes the
      action of an open, and a close is sent as `close`. */
  function PipedreamPayload(symbol: string, direction: string, action: string): Json {
    JObj([("symbol", JStr(symbol)), ("action", JStr(if action == "open" then direction else "close"))])
  }

  predicate SenderChoices(symbol: string, direction: string, action: string) {
    symbol != "" && Text.Lacks(symbol, '/') && !Text.Contains(symbol, ".P")
    && (direction == "long" || direction == "short") && (action == "open" || action == "close")
  }

  lemma LowerOfChoices(direction: string, action: string)
    requires (direction == "long" || direction == "short") && (action == "open" || action == "close")
    ensures Text.Lower(direction) == direction && Text.Lower(action) == action
  {
    Text.LowerOfLower(direction);
    Text.LowerOfLower(action);
  }

  /** The handler reads back the signal the sender's basic payload carries. */
  lemma BasicPayloadRoundTrip(symbol: string, direction: string, action: string)
    requires SenderChoices(symbol, direction, action)
    ensures Normalize(Some(BasicPayload(symbol, direction, action)), true)
      == Accepted(Signal(symbol, direction, action), AcceptedPrefix + symbol + "/" + direction + "/" + action)
  {
    var fields := BasicPayload(symbol, direction, action).fields;
    assert HasKey(fields, "signal") by { assert fields[0].0 == "signal"; }
    assert !HasKey(fields, "symbol") && !HasKey(fields, "action");
    SplitSignal(symbol, direction, action);
    LowerOfChoices(direction, action);
  }

  /** The handler reads back the signal the sender's TradingView payload carries. */
  lemma TradingViewPayloadRoundTrip(symbol: string, direction: string, action: string)
    requires SenderChoices(symbol, direction, action)
    ensures Normalize(Some(TradingViewPayload(symbol, direction, action)), true)
      == Accepted(Signal(symbol, direction, action), AcceptedPrefix + symbol + "/" + direction + "/" + action)
  {
    var fields := TradingViewPayload(symbol, direction, action).fields;
    assert HasKey(fields, "strategy") by { assert fields[0].0 == "strategy"; }
    assert !HasKey(fields, "symbol") && !HasKey(fields, "action") && !HasKey(fields, "signal");
    var strategy := fields[0].1;
    assert HasKey(strategy.fields, "alert_message") by { assert strategy.fields[0].0 == "alert_message"; }
    SplitSignal(symbol, direction, action);
    LowerOfChoices(direction, action);
  }

  lemma SplitSignal(symbol: string, direction: string, action: string)
    requires SenderChoices(symbol, direction, action)
    ensures Text.Split(symbol + "/" + direction + "/" + action, '/') == [symbol, direction, action]
  {
    assert Text.Lacks(direction, '/') && Text.Lacks(action, '/');
    Text.SplitJoin3(symbol, direction, action, '/');
  }

  /** A top-level string symbol selects the short form: the direction is `long` and the
      action `open` exactly when the lower-cased `action` member is `buy`; anything else,
      a missing action included, is a short close. The symbol is handed on with its
      `.P` marker dropped. */
  lemma TopLevelSymbolBuyIsLongOpen(fields: seq<(string, Json)>, symbol: string, rawAction: string)
    requires Get(fields, "symbol") == Some(JStr(symbol)) && CleanSymbol(symbol) != ""
    requires Get(fields, "action") == Some(JStr(rawAction)) || (!HasKey(fields, "action") && rawAction == "")
    ensures var buy := Text.Lower(rawAction) == "buy";
      var clean := CleanSymbol(symbol);
      Normalize(Some(JObj(fields)), true)
      == Accepted(Signal(clean, if buy then "long" else "short", if buy then "open" else "close"),
                  AcceptedPrefix + clean + "/" + (if buy then "long" else "short") + "/" + (if buy then "open" else "close"))
  {
    var buy := Text.Lower(rawAction) == "buy";
    var direction, action := if buy then "long" else "short", if buy then "open" else "close";
    assert symbol != "";
    assert HasKey(fields, "symbol");
    assert Truthy(JObj(fields));
    assert GetOr(fields, "symbol", JStr("")) == JStr(symbol);
    assert GetOr(fields, "action", JStr("")) == JStr(rawAction);
    assert Normalize(Some(JObj(fields)), true) == FromTopLevelSymbol(JStr(symbol), Text.Lower(rawAction));
    LowerOfChoices(direction, action);
  }

  /** Whatever the sender is asked to do, its pipedream payload arrives as a short
      close, because its `action` member is never `buy`. */
  lemma PipedreamPayloadIsShortClose(symbol: string, direction: string, action: string)
    requires SenderChoices(symbol, direction, action)
    ensures Normalize(Some(PipedreamPayload(symbol, direction, action)), true).Accepted?
    ensures Normalize(Some(PipedreamPayload(symbol, direction, action)), true).signal
      == Signal(symbol, "short", "close")
  {
    var fields := PipedreamPayload(symbol, direction, action).fields;
    var sent := if action == "open" then direction else "close";
    assert Get(fields, "action") == Some(JStr(sent));
    LowerOfChoices(direction, "close");
    assert Text.Lower(sent) == sent;
    TopLevelSymbolBuyIsLongOpen(fields, symbol, sent);
  }

  /** A body with none of the signal keys takes the first string value that splits into
      three parts, in document order; with none at all the reply is "No signal
      provided". */
  lemma LastResortScan(fields: seq<(string, Json)>)
    requires fields != []
    requires !HasKey(fields, "symbol") && !HasKey(fields, "action") && !HasKey(fields, "signal")
    requires !HasKey(fields, "strategy") && !HasKey(fields, "message") && !HasKey(fields, "text")
    ensures FirstSlashTriple(fields).None? ==> Normalize(Some(JObj(fields)), true) == Rejected(400, "No signal provided")
    ensures FirstSlashTriple(fields).Some? ==>
      var parts := Text.Split(FirstSlashTriple(fields).value, '/');
      Normalize(Some(JObj(fields)), true) == CheckComponents(parts[0], parts[1], parts[2])
  {
    assert GetOr(fields, "symbol", JStr("")) == JStr("");
    assert GetOr(fields, "action", JStr("")) == JStr("");
    assert Normalize(Some(JObj(fields)), true) == FromSignalText(fields);
    match FirstSlashTriple(fields)
    case None =>
      assert SignalSource(fields) == Success(None);
    case Some(s) =>
      assert SignalSource(fields) == Success(Some(JStr(s)));
  }

  /** A body whose chosen signal is a string, with no top-level symbol and a string or
      missing action, is answered from the signal text. */
  lemma AnsweredFromSignalText(fields: seq<(string, Json)>, signal: string)
    requires !Truthy(GetOr(fields, "symbol", JStr(""))) && GetOr(fields, "action", JStr("")).JStr?
    requires SignalSource(fields) == Success(Some(JStr(signal)))
    ensures Normalize(Some(JObj(fields)), true) == FromSignalText(fields)
  {
    assert fields != [];
  }

  /** Whichever member the signal string was chosen from, an empty one is refused with
      "No signal provided", one that does not split into exactly three parts with
      "Invalid signal format", and three parts go on to the component checks. */
  lemma SignalFormatChecked(fields: seq<(string, Json)>, signal: string)
    requires !Truthy(GetOr(fields, "symbol", JStr(""))) && GetOr(fields, "action", JStr("")).JStr?
    requires SignalSource(fields) == Success(Some(JStr(signal)))
    ensures signal == "" ==> Normalize(Some(JObj(fields)), true) == Rejected(400, "No signal provided")
    ensures signal != "" && |Text.Split(signal, '/')| != 3 ==>
      Normalize(Some(JObj(fields)), true) == Rejected(400, "Invalid signal format")
    ensures var parts := Text.Split(signal, '/');
      signal != "" && |parts| == 3 ==>
      Normalize(Some(JObj(fields)), true) == CheckComponents(parts[0], parts[1], parts[2])
  {
    AnsweredFromSignalText(fields, signal);
  }
}
