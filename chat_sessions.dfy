/**
 * The chat side of the intelligence service: the connection manager that keeps
 * the open websocket connections and a bounded chat history per connection, and
 * one websocket session (`/chat/{project_id}`): its connection id, the checks made
 * before chatting, the handling of each received frame and the final disconnect.
 *
 * A websocket is represented by its Python object id; what is received is a
 * sequence of frames, and what is sent is returned as a sequence of messages.
 */
module ChatSessions {
  import opened Wrappers
  import opened Text
  import opened Retrieval

  /** `id(websocket)` */
  type Socket = nat

  /** `{"role": role, "content": message}` */
  datatype ChatEntry = ChatEntry(role: string, content: string)

  /** A connection keeps at most this many history entries. */
  const MaxHistory := 20

  /** `h[-20:]` once the history is longer than 20 entries: the newest 20. */
  function Window(h: seq<ChatEntry>): (w: seq<ChatEntry>)
    ensures |w| == if |h| <= MaxHistory then |h| else MaxHistory
    ensures w == h[|h| - |w|..]
  {
    if |h| > MaxHistory then h[|h| - MaxHistory..] else h
  }

  /** The history after one entry is added. */
  function Appended(h: seq<ChatEntry>, e: ChatEntry): seq<ChatEntry> {
    Window(h + [e])
  }

  /** The new entry is always kept, last; the history never exceeds 20 entries;
      nothing is dropped while there is room; otherwise exactly the oldest entry
      of a full history goes. */
  lemma AppendedShape(h: seq<ChatEntry>, e: ChatEntry)
    requires |h| <= MaxHistory
    ensures var a := Appended(h, e);
      && 1 <= |a| <= MaxHistory
      && a[|a| - 1] == e
      && (|h| < MaxHistory ==> a == h + [e])
      && (|h| == MaxHistory ==> a == h[1..] + [e])
  {
    var a := Appended(h, e);
    if |h| == MaxHistory {
      assert a == (h + [e])[1..];
      assert (h + [e])[1..] == h[1..] + [e];
    }
  }

  /** Windowing before adding is the same as windowing after: the history is
      always the newest 20 entries of everything added. */
  lemma AppendedWindow(h: seq<ChatEntry>, e: ChatEntry)
    ensures Appended(Window(h), e) == Window(h + [e])
  {
    if |h| > MaxHistory {
      var w := Window(h);
      assert w + [e] == (h + [e])[|h| - MaxHistory..];
    }
  }

  /** The history of a connection after the given entries were added, one by one,
      to an empty history. */
  function HistoryOf(entries: seq<ChatEntry>): seq<ChatEntry> {
    if entries == [] then []
    else Appended(HistoryOf(entries[..|entries| - 1]), entries[|entries| - 1])
  }

  /** A connection's history holds the last min(20, n) of the n entries added to
      it, in the order they were added. */
  lemma {:induction false} HistoryIsNewest(entries: seq<ChatEntry>)
    ensures HistoryOf(entries) == Window(entries)
  {
    if entries != [] {
      var n := |entries|;
      HistoryIsNewest(entries[..n - 1]);
      AppendedWindow(entries[..n - 1], entries[n - 1]);
      assert entries[..n - 1] + [entries[n - 1]] == entries;
    }
  }

  /** `connection_id = f"{project_id}_{id(websocket)}"` */
  function ConnectionId(projectId: string, socket: Socket): (id: string)
    ensures StartsWith(id, projectId + "_")
  {
    projectId + "_" + DecimalString(socket)
  }

  /** The number of digits `s` ends with. */
  function TrailingDigits(s: string): (n: nat)
    ensures n <= |s|
  {
    if s == [] || !IsDigit(s[|s| - 1]) then 0 else 1 + TrailingDigits(s[..|s| - 1])
  }

  lemma {:induction false} TrailingDigitsAfterUnderscore(p: string, d: string)
    requires AllDigits(d)
    ensures TrailingDigits(p + "_" + d) == |d|
  {
    var s := p + "_" + d;
    if d != [] {
      var n := |d|;
      assert s[|s| - 1] == d[n - 1];
      assert s[..|s| - 1] == p + "_" + d[..n - 1];
      TrailingDigitsAfterUnderscore(p, d[..n - 1]);
    }
  }

  /** Connection ids identify the project and the websocket: the socket id has no
      '_', so the last '_' separates the two. */
  lemma ConnectionIdInjective(p1: string, s1: Socket, p2: string, s2: Socket)
    ensures ConnectionId(p1, s1) == ConnectionId(p2, s2) <==> p1 == p2 && s1 == s2
  {
    var d1, d2 := DecimalString(s1), DecimalString(s2);
    var id := ConnectionId(p1, s1);
    if id == ConnectionId(p2, s2) {
      TrailingDigitsAfterUnderscore(p1, d1);
      TrailingDigitsAfterUnderscore(p2, d2);
      assert d1 == id[|id| - |d1|..] == d2;
      assert p1 == id[..|p1|] == p2;
      DecimalStringInjective(s1, s2);
    }
  }

  /** `ConnectionManager`: the open connections and their chat histories. */
  class ConnectionManager {
    var activeConnections: map<string, Socket>
    var chatHistories: map<string, seq<ChatEntry>>

    /** No history is longer than the window. */
    ghost predicate Valid()
      reads this
    {
      forall id :: id in chatHistories ==> |chatHistories[id]| <= MaxHistory
    }

    constructor ()
      ensures activeConnections == map[] && chatHistories == map[]
      ensures Valid()
    {
      activeConnections := map[];
      chatHistories := map[];
    }

    /** `connect`, once the websocket is accepted: the connection is registered
        under its id, replacing any connection with that id. */
    method Connect(socket: Socket, connectionId: string)
      modifies this`activeConnections
      ensures activeConnections == old(activeConnections)[connectionId := socket]
    {
      activeConnections := activeConnections[connectionId := socket];
    }

    /** `disconnect`: the connection and its history are forgotten, every other
        connection is kept; forgetting an unknown id changes nothing. */
    method Disconnect(connectionId: string)
      requires Valid()
      modifies this
      ensures Valid()
      ensures activeConnections == old(activeConnections) - {connectionId}
      ensures chatHistories == old(chatHistories) - {connectionId}
      ensures connectionId !in old(activeConnections) && connectionId !in old(chatHistories) ==>
        activeConnections == old(activeConnections) && chatHistories == old(chatHistories)
    {
      if connectionId in activeConnections {
        activeConnections := activeConnections - {connectionId};
      }
      if connectionId in chatHistories {
        chatHistories := chatHistories - {connectionId};
      }
    }

    /** `get_chat_history`: the connection's history, empty for an unknown id;
        nothing changes. */
    method GetChatHistory(connectionId: string) returns (h: seq<ChatEntry>)
      requires Valid()
      ensures |h| <= MaxHistory
      ensures connectionId in chatHistories ==> h == chatHistories[connectionId]
      ensures connectionId !in chatHistories ==> h == []
    {
      h := if connectionId in chatHistories then chatHistories[connectionId] else [];
    }

    /** `add_to_history`: the entry is appended to the connection's history (a new
        one for an unknown id), which is then cut to its newest 20 entries; the
        other histories and the connections are untouched. */
    method AddToHistory(connectionId: string, role: string, message: string)
      requires Valid()
      modifies this`chatHistories
      ensures Valid()
      ensures var before := if connectionId in old(chatHistories) then old(chatHistories)[connectionId] else [];
        chatHistories == old(chatHistories)[connectionId := Appended(before, ChatEntry(role, message))]
    {
      if connectionId !in chatHistories {
        chatHistories := chatHistories[connectionId := []];
      }
      var h := chatHistories[connectionId] + [ChatEntry(role, message)];
      chatHistories := chatHistories[connectionId := h];
      if |chatHistories[connectionId]| > MaxHistory {
        var n := |chatHistories[connectionId]|;
        chatHistories := chatHistories[connectionId := chatHistories[connectionId][n - MaxHistory..]];
      }
    }
  }

  /** A value of the received JSON document's "message" entry. */
  datatype JsonValue = JString(text: string) | JOther

  /** The received text, decoded: not JSON, JSON but not an object, or an object. */
  datatype Json = Malformed | NonObject | Object(fields: map<string, JsonValue>)

  /** What `receive_text` yields: a text frame, or the client closed the socket. */
  datatype Frame = Closed | TextFrame(json: Json)

  /** The errors the endpoint reports to the client. */
  datatype SessionError = ProjectNotFound(projectId: string) | NoEmbeddings(projectId: string) | InvalidJson | Unexpected

  /** The `error` text sent for each. */
  function ErrorText(e: SessionError): (s: string)
    ensures e.ProjectNotFound? ==> s == "Project " + e.projectId + " not found"
  {
    match e
    case ProjectNotFound(projectId) => "Project " + projectId + " not found"
    case NoEmbeddings(projectId) =>
      "No embeddings found for project " + projectId + ". Please ensure the project has been processed."
    case InvalidJson => "Invalid JSON format"
    case Unexpected => "An unexpected error occurred"
  }

  /** What the loop does with one frame. */
  datatype FrameAction = Stop | Skip | Ask(question: string) | Complain(error: SessionError)

  /** One turn of the receive loop: a closed socket ends it; malformed JSON is
      answered with an error; `message_data.get("message", "").strip()` fails with
      an unexpected error on a non-object or a non-string message; a missing or
      blank message is skipped; any other message is asked, stripped. */
  function Classify(frame: Frame): (a: FrameAction)
    ensures a.Stop? <==> frame.Closed?
    ensures a.Ask? ==> a.question != [] && Strip(a.question) == a.question
  {
    match frame
    case Closed => Stop
    case TextFrame(Malformed) => Complain(InvalidJson)
    case TextFrame(NonObject) => Complain(Unexpected)
    case TextFrame(Object(fields)) =>
      if "message" !in fields then Skip
      else match fields["message"]
        case JOther => Complain(Unexpected)
        case JString(text) =>
          var question := Strip(text);
          if question == [] then Skip
          else
            StripIdempotent(text);
            Ask(question)
  }

  /** A frame is skipped exactly when it is a JSON object whose "message" is
      missing or a blank string; a question asked is never blank. */
  lemma ClassifySkips(frame: Frame)
    ensures Classify(frame).Skip? <==>
      && frame.TextFrame? && frame.json.Object?
      && ("message" in frame.json.fields ==>
            frame.json.fields["message"].JString? && AllSpace(frame.json.fields["message"].text))
    ensures Classify(frame).Ask? ==> !AllSpace(Classify(frame).question)
  {
    var a := Classify(frame);
    if a.Ask? {
      assert !IsSpace(a.question[0]);
    }
  }

  /** A message the endpoint sends. */
  datatype Outgoing =
    | Error(error: SessionError)
    | Welcome(projectName: string)
    | Typing
    | Response(reply: ChatResult)

  /** A received frame, with the index statistics its processing reads. */
  datatype Incoming = Incoming(frame: Frame, snapshots: Snapshots)

  /** What has been sent, and the cached chains after it. */
  datatype Session = Session(sent: seq<Outgoing>, chains: map<string, Chain>)

  /** What the loop sends for one frame, and the chains after it: a typing notice
      and the reply for a question, an error for a bad frame, nothing otherwise. */
  function Step(action: FrameAction, snapshots: Snapshots, chains: map<string, Chain>, projectId: string,
                run: Runner): Session
  {
    if action.Ask? then
      var t := Respond(chains, projectId, action.question, snapshots, run);
      Session([Typing, Response(t.result)], t.chains)
    else if action.Complain? then Session([Error(action.error)], chains)
    else Session([], chains)
  }

  /** What the receive loop sends for the given frames, and the chains after it:
      each frame's messages, in order, until the socket closes (or the frames run
      out), every question answered with the chains the earlier ones left. */
  function Loop(frames: seq<Incoming>, chains: map<string, Chain>, projectId: string, run: Runner): Session
  {
    if frames == [] || Classify(frames[0].frame).Stop? then Session([], chains)
    else
      var step := Step(Classify(frames[0].frame), frames[0].snapshots, chains, projectId, run);
      var rest := Loop(frames[1..], step.chains, projectId, run);
      Session(step.sent + rest.sent, rest.chains)
  }

  /** A question the loop asks, with the statistics read while answering it. */
  datatype Question = Question(text: string, snapshots: Snapshots)

  /** A question as the loop asks it: stripped, and not empty. */
  predicate Askable(q: Question) {
    q.text != [] && Strip(q.text) == q.text
  }

  /** The questions the loop asks, in order, up to the first closed frame. */
  function Questions(frames: seq<Incoming>): (qs: seq<Question>)
    ensures forall k :: 0 <= k < |qs| ==> Askable(qs[k])
  {
    if frames == [] then []
    else
      var a := Classify(frames[0].frame);
      if a.Stop? then []
      else if a.Ask? then [Question(a.question, frames[0].snapshots)] + Questions(frames[1..])
      else Questions(frames[1..])
  }

  /** The replies among the sent messages. */
  function Replies(sent: seq<Outgoing>): seq<ChatResult> {
    if sent == [] then []
    else (if sent[0].Response? then [sent[0].reply] else []) + Replies(sent[1..])
  }

  lemma {:induction false} RepliesAppend(a: seq<Outgoing>, b: seq<Outgoing>)
    ensures Replies(a + b) == Replies(a) + Replies(b)
  {
    if a != [] {
      assert (a + b)[0] == a[0];
      assert (a + b)[1..] == a[1..] + b;
      RepliesAppend(a[1..], b);
      var head := if a[0].Response? then [a[0].reply] else [];
      assert head + (Replies(a[1..]) + Replies(b)) == (head + Replies(a[1..])) + Replies(b);
    } else {
      assert a + b == b;
    }
  }

  /** The reply to each of the questions, in order, each answered with the chains
      the questions before it left. */
  function Answers(qs: seq<Question>, chains: map<string, Chain>, projectId: string, run: Runner)
    : (rs: seq<ChatResult>)
    ensures |rs| == |qs|
    ensures qs != [] ==> rs[0] == Respond(chains, projectId, qs[0].text, qs[0].snapshots, run).result
  {
    if qs == [] then []
    else
      var t := Respond(chains, projectId, qs[0].text, qs[0].snapshots, run);
      [t.result] + Answers(qs[1..], t.chains, projectId, run)
  }

  /** One frame's messages hold the reply to the question it asks, if any, and
      nothing else that is a reply. */
  lemma StepReplies(action: FrameAction, snapshots: Snapshots, chains: map<string, Chain>, projectId: string,
                    run: Runner)
    ensures action.Ask? ==>
      Replies(Step(action, snapshots, chains, projectId, run).sent)
      == [Respond(chains, projectId, action.question, snapshots, run).result]
    ensures !action.Ask? ==>
      Replies(Step(action, snapshots, chains, projectId, run).sent) == []
      && Step(action, snapshots, chains, projectId, run).chains == chains
  {
    var step := Step(action, snapshots, chains, projectId, run).sent;
    if action.Ask? {
      var reply := Respond(chains, projectId, action.question, snapshots, run).result;
      assert step == [Typing, Response(reply)];
      assert step[1..] == [Response(reply)];
      assert step[1..][1..] == [];
      assert Replies(step[1..]) == [reply];
    } else if action.Complain? {
      assert step[1..] == [];
    }
  }

  /** Every question gets exactly one reply, in order, and nothing else is a
      reply: blank messages are never answered. Each reply is the one the chains
      left by the earlier questions give. */
  lemma {:induction false} EachQuestionAnswered(frames: seq<Incoming>, chains: map<string, Chain>, projectId: string,
                                                run: Runner)
    ensures Replies(Loop(frames, chains, projectId, run).sent) == Answers(Questions(frames), chains, projectId, run)
  {
    if frames != [] && !Classify(frames[0].frame).Stop? {
      var a := Classify(frames[0].frame);
      var step := Step(a, frames[0].snapshots, chains, projectId, run);
      EachQuestionAnswered(frames[1..], step.chains, projectId, run);
      RepliesAppend(step.sent, Loop(frames[1..], step.chains, projectId, run).sent);
      StepReplies(a, frames[0].snapshots, chains, projectId, run);
      if a.Ask? {
        var q := Question(a.question, frames[0].snapshots);
        assert Questions(frames) == [q] + Questions(frames[1..]);
        assert ([q] + Questions(frames[1..]))[1..] == Questions(frames[1..]);
      }
    }
  }

  /** The loop keeps the cached chains configured. */
  lemma {:induction false} LoopConfigured(frames: seq<Incoming>, chains: map<string, Chain>, projectId: string,
                                          run: Runner)
    requires ConfiguredChains(chains)
    ensures ConfiguredChains(Loop(frames, chains, projectId, run).chains)
  {
    if frames != [] && !Classify(frames[0].frame).Stop? {
      var step := Step(Classify(frames[0].frame), frames[0].snapshots, chains, projectId, run);
      LoopConfigured(frames[1..], step.chains, projectId, run);
    }
  }

  /** `verify_project_exists` found the project (None when missing or on error). */
  datatype ProjectInfo = ProjectInfo(name: string)

  /** All a session sends, and the chains after it: an error when the project is
      missing or has no embeddings by the statistics read when the session starts,
      otherwise the welcome and the loop's messages. */
  function SessionReplies(project: Option<ProjectInfo>, check: Option<IndexStats>, frames: seq<Incoming>,
                          chains: map<string, Chain>, projectId: string, run: Runner): (s: Session)
    ensures project.None? ==> s == Session([Error(ProjectNotFound(projectId))], chains)
    ensures project.Some? && !HasEmbeddings(check, projectId) ==> s == Session([Error(NoEmbeddings(projectId))], chains)
    ensures project.Some? && HasEmbeddings(check, projectId) ==>
      |s.sent| >= 1 && s.sent[0] == Welcome(project.value.name)
  {
    if project.None? then Session([Error(ProjectNotFound(projectId))], chains)
    else if !HasEmbeddings(check, projectId) then Session([Error(NoEmbeddings(projectId))], chains)
    else
      var loop := Loop(frames, chains, projectId, run);
      Session([Welcome(project.value.name)] + loop.sent, loop.chains)
  }

  /** One turn of the receive loop, for a frame that does not close the socket. */
  method HandleFrame(cache: ChainCache, action: FrameAction, projectId: string, snapshots: Snapshots, run: Runner)
    returns (step: seq<Outgoing>)
    requires cache.Valid()
    modifies cache
    ensures cache.Valid()
    ensures Session(step, cache.projectChains) == Step(action, snapshots, old(cache.projectChains), projectId, run)
  {
    step := [];
    if action.Ask? {
      // the typing notice goes out before the message is processed
      var reply := cache.ProcessChatMessage(projectId, action.question, snapshots, run);
      step := [Typing, Response(reply)];
    } else if action.Complain? {
      step := [Error(action.error)];
    }
  }

  /** The receive loop of `websocket_endpoint`: frames are handled one by one,
      each question through `process_chat_message`, until the socket closes. */
  method ReceiveLoop(cache: ChainCache, projectId: string, run: Runner, frames: seq<Incoming>)
    returns (sent: seq<Outgoing>)
    requires cache.Valid()
    modifies cache
    ensures cache.Valid()
    ensures Session(sent, cache.projectChains) == Loop(frames, old(cache.projectChains), projectId, run)
  {
    sent := [];
    var i := 0;
    while i < |frames|
      invariant 0 <= i <= |frames|
      invariant cache.Valid()
      invariant Resumes(sent, frames, i, cache.projectChains, old(cache.projectChains), projectId, run)
      decreases |frames| - i
    {
      var action := Classify(frames[i].frame);
      if action.Stop? {
        LoopStops(sent, frames, i, cache.projectChains, old(cache.projectChains), projectId, run);
        break;
      }
      ghost var before := cache.projectChains;
      var step := HandleFrame(cache, action, projectId, frames[i].snapshots, run);
      LoopContinues(sent, step, frames, i, before, cache.projectChains, old(cache.projectChains), projectId, run);
      sent := sent + step;
      i := i + 1;
    }
    if i == |frames| {
      assert Loop(frames[i..], cache.projectChains, projectId, run) == Session([], cache.projectChains);
      assert sent + [] == sent;
    }
  }

  /** Having sent `sent` and reached `chains` after the first `i` frames, the loop
      over the remaining frames completes the loop over all of them. */
  ghost predicate Resumes(sent: seq<Outgoing>, frames: seq<Incoming>, i: nat, chains: map<string, Chain>,
                          chains0: map<string, Chain>, projectId: string, run: Runner)
  {
    i <= |frames| &&
    var rest := Loop(frames[i..], chains, projectId, run);
    Session(sent + rest.sent, rest.chains) == Loop(frames, chains0, projectId, run)
  }

  lemma LoopAt(frames: seq<Incoming>, i: nat, chains: map<string, Chain>, projectId: string, run: Runner)
    requires i < |frames|
    ensures Classify(frames[i].frame).Stop? ==> Loop(frames[i..], chains, projectId, run) == Session([], chains)
    ensures !Classify(frames[i].frame).Stop? ==>
      var step := Step(Classify(frames[i].frame), frames[i].snapshots, chains, projectId, run);
      var rest := Loop(frames[i + 1..], step.chains, projectId, run);
      Loop(frames[i..], chains, projectId, run) == Session(step.sent + rest.sent, rest.chains)
  {
    assert frames[i..][0] == frames[i];
    assert frames[i..][1..] == frames[i + 1..];
  }

  /** A closed frame ends the loop with everything it was to send already sent. */
  lemma LoopStops(sent: seq<Outgoing>, frames: seq<Incoming>, i: nat, chains: map<string, Chain>,
                  chains0: map<string, Chain>, projectId: string, run: Runner)
    requires i < |frames| && Classify(frames[i].frame).Stop?
    requires Resumes(sent, frames, i, chains, chains0, projectId, run)
    ensures Session(sent, chains) == Loop(frames, chains0, projectId, run)
  {
    LoopAt(frames, i, chains, projectId, run);
    assert sent + [] == sent;
  }

  /** Any other frame sends its messages and the loop goes on with the next one. */
  lemma LoopContinues(sent: seq<Outgoing>, step: seq<Outgoing>, frames: seq<Incoming>, i: nat,
                      chains: map<string, Chain>, after: map<string, Chain>, chains0: map<string, Chain>,
                      projectId: string, run: Runner)
    requires i < |frames| && !Classify(frames[i].frame).Stop?
    requires Session(step, after) == Step(Classify(frames[i].frame), frames[i].snapshots, chains, projectId, run)
    requires Resumes(sent, frames, i, chains, chains0, projectId, run)
    ensures Resumes(sent + step, frames, i + 1, after, chains0, projectId, run)
  {
    LoopAt(frames, i, chains, projectId, run);
    var rest := Loop(frames[i + 1..], after, projectId, run);
    SentInOrder(sent, step, rest.sent);
  }

  /** Messages sent so far, then one frame's, then the rest's: grouping does not matter. */
  lemma SentInOrder(sent: seq<Outgoing>, step: seq<Outgoing>, rest: seq<Outgoing>)
    ensures (sent + step) + rest == sent + (step + rest)
  {
  }

  /** `websocket_endpoint`: the connection is registered, the project and its
      embeddings are checked, frames are handled until the socket closes, and
      whatever happened the connection and its history are forgotten, leaving
      every other connection as it was. */
  method ChatSession(manager: ConnectionManager, cache: ChainCache, projectId: string, socket: Socket,
                     project: Option<ProjectInfo>, check: Option<IndexStats>, run: Runner, frames: seq<Incoming>)
    returns (sent: seq<Outgoing>)
    requires manager.Valid() && cache.Valid()
    modifies manager, cache
    ensures manager.Valid() && cache.Valid()
    ensures Session(sent, cache.projectChains)
            == SessionReplies(project, check, frames, old(cache.projectChains), projectId, run)
    ensures var id := ConnectionId(projectId, socket);
      && manager.activeConnections == old(manager.activeConnections) - {id}
      && manager.chatHistories == old(manager.chatHistories) - {id}
  {
    var id := ConnectionId(projectId, socket);
    manager.Connect(socket, id);
    if project.None? {
      sent := [Error(ProjectNotFound(projectId))];
    } else if !HasEmbeddings(check, projectId) {
      sent := [Error(NoEmbeddings(projectId))];
    } else {
      var replies := ReceiveLoop(cache, projectId, run, frames);
      sent := [Welcome(project.value.name)] + replies;
    }
    manager.Disconnect(id);
  }
}
