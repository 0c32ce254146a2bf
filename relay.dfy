/** One iteration of the polling loop in `main`, with the network, the clock
    and the chat left outside: the answer of the API, the current time and
    whether the chat accepted a message are inputs of a step. The loop keeps
    two variables, the cursor (`current_timestamp`) and the last message sent
    (`first_message`); `NextState` says what one iteration does to them and
    `Poller.Step` is that iteration written the way `main` writes it. */
module Relay {
  import opened Wrappers
  import opened PyJson
  import opened Homework

  /** What the `try` block of an iteration comes to before anything is sent. */
  datatype Poll =
    | NoNews                                   // the homework list was empty
    | News(message: string, nextCursor: Json)  // the status sentence and `current_date`
    | Failed(failure: Failure)                 // an exception other than a TelegramError

  /** The text the `except Exception` handler sends for a failure. */
  function FailureText(f: Failure): (r: string)
    ensures |r| == |FailureOpening| + |Message(f)| && r[0] == 'С'
    ensures r[..|FailureOpening|] == FailureOpening
    ensures EndsWith(r, Message(f))
  {
    EndsWithConcat(FailureOpening, Message(f));
    FailureOpening + Message(f)
  }

  const FailureOpening := "Сбой в работе программы: "

  /** Fetch, validate, and format the most recent homework. */
  function PollOf(reply: HttpReply): (p: Poll)
    ensures p.News? <==>
      && GetApiAnswer(reply).Ok?
      && CheckResponse(GetApiAnswer(reply).value).Ok?
      && CheckResponse(GetApiAnswer(reply).value).value != []
      && ParseStatus(CheckResponse(GetApiAnswer(reply).value).value[0]).Ok?
    ensures p.News? ==>
      var response := GetApiAnswer(reply).value;
      && p.message == ParseStatus(CheckResponse(response).value[0]).value
      && Get(response.fields, "current_date") == Some(p.nextCursor)
    ensures p.NoNews? <==>
      GetApiAnswer(reply).Ok? && CheckResponse(GetApiAnswer(reply).value) == Ok([])
    ensures p.Failed? ==>
      p.failure ==
      (if GetApiAnswer(reply).Err? then GetApiAnswer(reply).error
      else if CheckResponse(GetApiAnswer(reply).value).Err? then
        CheckResponse(GetApiAnswer(reply).value).error
      else ParseStatus(CheckResponse(GetApiAnswer(reply).value).value[0]).error)
  {
    match GetApiAnswer(reply)
    case Err(f) => Failed(f)
    case Ok(response) =>
      match CheckResponse(response)
      case Err(f) => Failed(f)
      case Ok(homeworks) =>
        if homeworks == [] then NoNews
        else
          match ParseStatus(homeworks[0])
          case Err(f) => Failed(f)
          case Ok(message) => News(message, CurrentDate(response))
  }

  /** The message an iteration wants to send, if any. */
  function Outgoing(p: Poll): Option<string> {
    match p
    case NoNews => None
    case News(message, _) => Some(message)
    case Failed(f) => Some(FailureText(f))
  }

  /** The loop's variables: `current_timestamp` and `first_message`. */
  datatype State = State(cursor: Json, lastSent: string)

  /** What an iteration did: the new variables, the message handed to the
      chat (if any), and whether a TelegramError escaped `main`. */
  datatype Outcome = Outcome(next: State, attempted: Option<string>, halted: bool)

  /** main before the loop: with the credentials in place, the cursor starts
      at the current time and nothing has been sent; otherwise the process
      exits. */
  function Boot(practicum: Option<string>, telegram: Option<string>,
                chatId: Option<string>, now: int): (r: Option<State>)
    ensures r.Some? <==> Present(practicum) && Present(telegram) && Present(chatId)
    ensures r.Some? ==> r.value.cursor == JInt(now) && r.value.lastSent == ""
  {
    if CheckTokens(practicum, telegram, chatId) then Some(State(JInt(now), "")) else None
  }

  /** One iteration, given the poll's result and whether the chat refuses the
      message (`send_message` raising a TelegramError). A message goes out
      only when it differs from the last one sent; the last-sent text changes
      only when a message was delivered; the cursor moves, to
      `current_date`, only on news that was delivered or was a repeat; and
      only a refused failure report ends the process, because the handler
      that sends it has no handler around it. */
  function NextState(s: State, p: Poll, sendFails: bool): (r: Outcome)
    ensures r.attempted ==
      if Outgoing(p).Some? && Outgoing(p).value != s.lastSent then Outgoing(p) else None
    ensures r.next.lastSent ==
      if r.attempted.Some? && !sendFails then r.attempted.value else s.lastSent
    ensures r.next.cursor ==
      if p.News? && (r.attempted.None? || !sendFails) then p.nextCursor else s.cursor
    ensures r.halted <==> p.Failed? && r.attempted.Some? && sendFails
  {
    match p
    case NoNews => Outcome(s, None, false)
    case News(message, c) =>
      if message == s.lastSent then Outcome(State(c, s.lastSent), None, false)
      else if sendFails then Outcome(s, Some(message), false)
      else Outcome(State(c, message), Some(message), false)
    case Failed(f) =>
      var message := FailureText(f);
      if message == s.lastSent then Outcome(s, None, false)
      else if sendFails then Outcome(s, Some(message), true)
      else Outcome(State(s.cursor, message), Some(message), false)
  }

  // ---------------------------------------------------------------------------
  // Many iterations
  // ---------------------------------------------------------------------------

  /** The inputs of one iteration. */
  datatype Tick = Tick(poll: Poll, sendFails: bool)

  /** The messages the chat received over a run, and how the run ended. */
  datatype Trace = Trace(final: State, delivered: seq<string>, halted: bool)

  /** The message the chat received in an iteration, if any. */
  function Delivered(r: Outcome, sendFails: bool): seq<string> {
    if r.attempted.Some? && !sendFails then [r.attempted.value] else []
  }

  /** Iterations one after another, until the inputs run out or the process
      ends. */
  function Run(s: State, ticks: seq<Tick>): (t: Trace)
    ensures |t.delivered| <= |ticks|
    ensures t.halted ==>
      exists i :: 0 <= i < |ticks| && ticks[i].poll.Failed? && ticks[i].sendFails
    decreases |ticks|
  {
    if ticks == [] then Trace(s, [], false)
    else
      var r := NextState(s, ticks[0].poll, ticks[0].sendFails);
      var d := Delivered(r, ticks[0].sendFails);
      if r.halted then Trace(r.next, d, true)
      else
        var t := Run(r.next, ticks[1..]);
        Trace(t.final, d + t.delivered, t.halted)
  }

  /** No two neighbouring texts are equal. */
  predicate NoAdjacentRepeats(xs: seq<string>) {
    forall i :: 0 <= i < |xs| - 1 ==> xs[i] != xs[i + 1]
  }

  lemma PrependNoRepeats(x: string, xs: seq<string>)
    requires NoAdjacentRepeats(xs)
    requires xs != [] ==> xs[0] != x
    ensures NoAdjacentRepeats([x] + xs)
  {
    var all := [x] + xs;
    forall i | 0 <= i < |all| - 1
      ensures all[i] != all[i + 1]
    {
      if i > 0 {
        assert all[i] == xs[i - 1] && all[i + 1] == xs[i];
      }
    }
  }

  /** In one iteration the chat receives at most the new last-sent text,
      and only when that text changed. */
  lemma DeliveredIsLastSent(s: State, tick: Tick)
    ensures var r := NextState(s, tick.poll, tick.sendFails);
      var d := Delivered(r, tick.sendFails);
      && (d != [] ==> d == [r.next.lastSent] && r.next.lastSent != s.lastSent)
      && (d == [] ==> r.next.lastSent == s.lastSent)
  {
  }

  /** A run halts only at a pass that was reached, whose poll failed, whose
      failure report differed from the last text sent and so was handed to
      the chat, and which the chat refused. */
  lemma {:induction false} RunHaltsAtRefusedReport(s: State, ticks: seq<Tick>)
    ensures Run(s, ticks).halted ==>
      exists i :: 0 <= i < |ticks| && !Run(s, ticks[..i]).halted &&
        ticks[i].poll.Failed? && ticks[i].sendFails &&
        FailureText(ticks[i].poll.failure) != Run(s, ticks[..i]).final.lastSent
    decreases |ticks|
  {
    if ticks != [] && Run(s, ticks).halted {
      var r := NextState(s, ticks[0].poll, ticks[0].sendFails);
      if r.halted {
        assert ticks[..0] == [];
        assert Run(s, ticks[..0]) == Trace(s, [], false);
      } else {
        var rest := ticks[1..];
        RunHaltsAtRefusedReport(r.next, rest);
        var j :| 0 <= j < |rest| && !Run(r.next, rest[..j]).halted &&
          rest[j].poll.Failed? && rest[j].sendFails &&
          FailureText(rest[j].poll.failure) != Run(r.next, rest[..j]).final.lastSent;
        var pre := ticks[..j + 1];
        assert pre[0] == ticks[0] && pre[1..] == rest[..j];
        assert Run(s, pre).final == Run(r.next, rest[..j]).final;
        assert Run(s, pre).halted == Run(r.next, rest[..j]).halted;
        assert ticks[j + 1] == rest[j];
      }
    }
  }

  /** The chat never receives the same text twice in a row, the first text
      it receives differs from the one last sent before the run, and the
      last-sent variable always holds the last text received. */
  lemma {:induction false} RunNoRepeats(s: State, ticks: seq<Tick>)
    ensures var t := Run(s, ticks);
      && NoAdjacentRepeats(t.delivered)
      && (|t.delivered| > 0 ==> t.delivered[0] != s.lastSent)
      && t.final.lastSent == (if t.delivered == [] then s.lastSent
                              else t.delivered[|t.delivered| - 1])
    decreases |ticks|
  {
    if ticks != [] {
      var r := NextState(s, ticks[0].poll, ticks[0].sendFails);
      var d := Delivered(r, ticks[0].sendFails);
      DeliveredIsLastSent(s, ticks[0]);
      if !r.halted {
        var t := Run(r.next, ticks[1..]);
        RunNoRepeats(r.next, ticks[1..]);
        assert Run(s, ticks) == Trace(t.final, d + t.delivered, t.halted);
        if d != [] {
          PrependNoRepeats(d[0], t.delivered);
          assert t.delivered != [] ==> (d + t.delivered)[|d + t.delivered| - 1] == t.delivered[|t.delivered| - 1];
        } else {
          assert d + t.delivered == t.delivered;
        }
      }
    }
  }

  /** Once the last text sent is what the poll would send, repeating that
      poll delivers nothing. */
  lemma {:induction false} RepeatQuiet(s: State, p: Poll, ticks: seq<Tick>)
    requires Outgoing(p).None? || Outgoing(p) == Some(s.lastSent)
    requires forall i :: 0 <= i < |ticks| ==> ticks[i].poll == p
    ensures Run(s, ticks).delivered == []
    decreases |ticks|
  {
    if ticks != [] {
      var r := NextState(s, p, ticks[0].sendFails);
      assert r.attempted.None?;
      RepeatQuiet(r.next, p, ticks[1..]);
    }
  }

  /** The same poll result, however often it repeats and whether or not the
      chat refuses some of the sends, reaches the chat at most once. */
  lemma {:induction false} RepeatDeliversOnce(s: State, p: Poll, ticks: seq<Tick>)
    requires forall i :: 0 <= i < |ticks| ==> ticks[i].poll == p
    ensures |Run(s, ticks).delivered| <= 1
    decreases |ticks|
  {
    if ticks != [] {
      var r := NextState(s, p, ticks[0].sendFails);
      if !r.halted {
        if Delivered(r, ticks[0].sendFails) == [] {
          RepeatDeliversOnce(r.next, p, ticks[1..]);
        } else {
          RepeatQuiet(r.next, p, ticks[1..]);
        }
      }
    }
  }

  /** A status sentence and a failure report never coincide, so neither can
      suppress the other. */
  lemma NewsNeverMatchesFailure(name: Json, verdict: string, f: Failure)
    ensures StatusMessage(name, verdict) != FailureText(f)
  {
    assert StatusMessage(name, verdict)[0] == 'И';
    assert FailureText(f)[0] == 'С';
  }

  /** Right after start-up nothing has been sent, so the first message an
      iteration wants to send is always handed to the chat. */
  lemma FirstMessageGoesOut(cursor: Json, reply: HttpReply, sendFails: bool)
    ensures NextState(State(cursor, ""), PollOf(reply), sendFails).attempted ==
            Outgoing(PollOf(reply))
  {
    var p := PollOf(reply);
    if p.News? {
      var response := GetApiAnswer(reply).value;
      var hw := CheckResponse(response).value[0];
      assert p.message == StatusMessage(Get(hw.fields, "homework_name").value,
                                        Verdict(Get(hw.fields, "status").value).value);
      assert p.message[0] == 'И';
    } else if p.Failed? {
      assert FailureText(p.failure)[0] == 'С';
    }
  }

  /** The worked examples: an approved homework is announced and the cursor
      moves to `current_date`; an empty list sends nothing and leaves the
      cursor where it was. */
  lemma {:induction false} ExampleIterations(cursor: Json)
    ensures
      var hw := JObject([("homework_name", JStr("hw1")), ("status", JStr("approved"))]);
      var reply := Reply(200, Some(JObject([("homeworks", JArray([hw])),
                                            ("current_date", JInt(1000))])));
      var r := NextState(State(cursor, ""), PollOf(reply), false);
      && r.attempted == Some("Изменился статус проверки работы \"" + "hw1" + "\". " +
                             "Работа проверена: ревьюеру всё понравилось. Ура!")
      && r.next.cursor == JInt(1000)
    ensures
      var reply := Reply(200, Some(JObject([("homeworks", JArray([])),
                                            ("current_date", JInt(1000))])));
      var r := NextState(State(cursor, ""), PollOf(reply), false);
      r.attempted == None && r.next.cursor == cursor
  {
    var hw := JObject([("homework_name", JStr("hw1")), ("status", JStr("approved"))]);
    var fields := [("homeworks", JArray([hw])), ("current_date", JInt(1000))];
    assert fields[..1][..0] == [];
    assert Get(fields, "homeworks") == Some(JArray([hw]));
    assert Get(fields, "current_date") == Some(JInt(1000));
    ApprovedExample();
    var empty := [("homeworks", JArray([])), ("current_date", JInt(1000))];
    assert empty[..1][..0] == [];
    assert Get(empty, "homeworks") == Some(JArray([]));
    assert Get(empty, "current_date") == Some(JInt(1000));
  }

  // ---------------------------------------------------------------------------
  // The loop as main writes it
  // ---------------------------------------------------------------------------

  /** The state `main` carries from one iteration to the next. */
  class Poller {
    var cursor: Json     // current_timestamp
    var lastSent: string // first_message

    function Snapshot(): State
      reads this
    {
      State(cursor, lastSent)
    }

    /** The state main enters the loop with, once the credentials are in
        place. */
    constructor (now: int)
      ensures cursor == JInt(now) && lastSent == ""
    {
      cursor := JInt(now);
      lastSent := "";
    }

    /** The body of `while True`: it returns the `from_date` the request
        carries, the message handed to the chat, and whether an exception
        escaped `main`. */
    method Step(now: int, reply: HttpReply, sendFails: bool)
      returns (fromDate: Json, attempted: Option<string>, halted: bool)
      modifies this
      ensures fromDate == FromDate(old(cursor), now)
      ensures attempted.Some? ==> attempted.value != old(lastSent)
      ensures Outcome(Snapshot(), attempted, halted) ==
              NextState(old(Snapshot()), PollOf(reply), sendFails)
    {
      fromDate := FromDate(cursor, now);
      attempted, halted := None, false;
      var error: Option<Failure> := None;
      match GetApiAnswer(reply) {
        case Err(f) =>
          error := Some(f);
        case Ok(response) =>
          match CheckResponse(response) {
            case Err(f) =>
              error := Some(f);
            case Ok(homeworks) =>
              if homeworks != [] {
                match ParseStatus(homeworks[0]) {
                  case Err(f) =>
                    error := Some(f);
                  case Ok(message) =>
                    var telegramError := false;
                    if lastSent != message {
                      attempted := Some(message);
                      if sendFails {
                        // the TelegramError handler only logs it
                        telegramError := true;
                      } else {
                        lastSent := message;
                      }
                    }
                    if !telegramError {
                      cursor := CurrentDate(response);
                    }
                }
              }
          }
      }
      if error.Some? {
        var message := FailureText(error.value);
        if lastSent != message {
          attempted := Some(message);
          if sendFails {
            // nothing catches a TelegramError raised inside the handler
            halted := true;
          } else {
            lastSent := message;
          }
        }
      }
    }
  }
}
