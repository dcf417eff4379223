/**
  The session navigator as a state machine over values: the session record,
  the result of each tool, and one step function per tool. The class
  `McpServer.GameState` performs the same steps in place and is proved to
  agree with these functions.
 */
module Navigator {
  import opened Options
  import opened Stories
  import opened Matching

  /** The five fields of the process-wide game state. */
  datatype Session = Session(
    currentStoryId: Option<int>,
    currentNodeId: Option<int>,
    sessionId: Option<string>,
    lastJobId: Option<string>,
    storyData: Option<Story>)

  /** The state at process start: every field unset. */
  const Initial := Session(None, None, None, None, None)

  /** Outcome of `make_choice`; each refusal is its own variant. */
  datatype ChoiceResult =
    | Moved(
        selectedChoice: string,
        content: string,
        isEnding: bool,
        options: seq<Choice>,
        isWinningEnding: Option<bool>)
    | NoActiveStory
    | CurrentNodeNotFound
    | StoryEnded
    | NoOptions
    | ChoiceNotFound(available: seq<string>)
    | NextNodeNotFound

  /** Outcome of the state-changing part of `get_story`. */
  datatype LoadResult =
    | Loaded(
        storyId: int,
        title: string,
        createdAt: string,
        content: string,
        isEnding: bool,
        options: seq<Choice>)
    | NoStoryId
    | FetchFailed

  /** Outcome of `get_current_status`. */
  datatype StatusResult =
    | NoActiveStatus
    | ActiveStatus(
        storyId: Option<int>,
        storyTitle: string,
        content: string,
        isEnding: bool,
        options: seq<Choice>,
        sessionId: Option<string>)
    | StatusError

  /** One entry of `list_available_options`: a 1-based display number and the option text. */
  datatype NumberedOption = NumberedOption(number: int, text: string)

  /** Outcome of `list_available_options`. */
  datatype OptionsResult =
    | OptionsListed(options: seq<NumberedOption>)
    | OptionsNoActiveStory
    | OptionsError

  /** Python truthiness of an optional id: unset and 0 are both false. */
  predicate Truthy(id: Option<int>)
  {
    id.Some? && id.value != 0
  }

  /** A story is loaded and the cursor is set to a truthy id. */
  predicate HasActiveStory(s: Session)
  {
    s.storyData.Some? && Truthy(s.currentNodeId)
  }

  /** The node under the cursor, when there is an active story and the table holds the id. */
  function CurrentNode(s: Session): Option<Node>
  {
    if HasActiveStory(s) && s.currentNodeId.value in s.storyData.value.allNodes then
      Some(s.storyData.value.allNodes[s.currentNodeId.value])
    else
      None
  }

  /** Whenever a story is loaded and the cursor is set, the cursor names a node of the table. */
  predicate CursorValid(s: Session)
  {
    s.storyData.Some? && s.currentNodeId.Some? ==> s.currentNodeId.value in s.storyData.value.allNodes
  }

  /** `make_choice`: the tool's result and the session afterwards. */
  function ChoiceStep(s: Session, utterance: string): (ChoiceResult, Session)
  {
    if !HasActiveStory(s) then
      (NoActiveStory, s)
    else
      var story := s.storyData.value;
      var id := s.currentNodeId.value;
      if id !in story.allNodes then
        (CurrentNodeNotFound, s)
      else
        var node := story.allNodes[id];
        if node.isEnding then
          (StoryEnded, s)
        else if |node.options| == 0 then
          (NoOptions, s)
        else
          match FirstMatch(node.options, utterance)
          case None => (ChoiceNotFound(Texts(node.options)), s)
          case Some(k) =>
            var option := node.options[k];
            if option.nextNodeId !in story.allNodes then
              (NextNodeNotFound, s)
            else
              var next := story.allNodes[option.nextNodeId];
              (Moved(option.text, next.content, next.isEnding, next.options,
                     if next.isEnding then Some(next.isWinningEnding) else None),
               s.(currentNodeId := Some(option.nextNodeId)))
  }

  /** The story id `get_story` works with: the requested one if truthy, else the current one if truthy. */
  function ResolveStoryId(requested: Option<int>, current: Option<int>): (r: Option<int>)
    ensures r.None? <==> !Truthy(requested) && !Truthy(current)
    ensures r.Some? ==> Truthy(r) && (r == requested || r == current)
    ensures Truthy(requested) ==> r == requested
  {
    if Truthy(requested) then requested else if Truthy(current) then current else None
  }

  /**
    `get_story`: `response` is what the story service returned for the resolved
    id (None for a non-200 reply or a failed request).
   */
  function LoadStep(s: Session, requested: Option<int>, response: Option<Story>): (LoadResult, Session)
  {
    var storyId := ResolveStoryId(requested, s.currentStoryId);
    if storyId.None? then
      (NoStoryId, s)
    else if response.None? then
      (FetchFailed, s)
    else
      var payload := response.value;
      var root := payload.rootNode;
      (Loaded(payload.id, payload.title, payload.createdAt, root.content, root.isEnding, root.options),
       s.(currentStoryId := storyId, storyData := Some(payload), currentNodeId := Some(root.id)))
  }

  /** `get_current_status`. A missing node is the caught lookup fault. */
  function Status(s: Session): StatusResult
  {
    if !HasActiveStory(s) then
      NoActiveStatus
    else
      match CurrentNode(s)
      case None => StatusError
      case Some(node) =>
        ActiveStatus(s.currentStoryId, s.storyData.value.title, node.content,
                     node.isEnding, node.options, s.sessionId)
  }

  /** The numbered listing: option i (0-based) is shown as number i + 1. */
  function Numbered(options: seq<Choice>): seq<NumberedOption>
  {
    seq(|options|, i requires 0 <= i < |options| => NumberedOption(i + 1, options[i].text))
  }

  /** `list_available_options`. A missing node is the caught lookup fault. */
  function ListOptions(s: Session): OptionsResult
  {
    if !HasActiveStory(s) then
      OptionsNoActiveStory
    else
      match CurrentNode(s)
      case None => OptionsError
      case Some(node) =>
        if node.isEnding then OptionsListed([]) else OptionsListed(Numbered(node.options))
  }

  // ---------------------------------------------------------------------
  // Properties of make_choice

  /** Without a loaded story (or with cursor 0) the choice is refused and nothing changes. */
  lemma NoStoryRefused(s: Session, utterance: string)
    requires s.storyData.None? || !Truthy(s.currentNodeId)
    ensures ChoiceStep(s, utterance) == (NoActiveStory, s)
  {
  }

  /** A cursor naming no node of the table is refused, and nothing changes. */
  lemma MissingNodeRefused(s: Session, utterance: string)
    requires HasActiveStory(s) && s.currentNodeId.value !in s.storyData.value.allNodes
    ensures ChoiceStep(s, utterance) == (CurrentNodeNotFound, s)
  {
  }

  /** At an ending the choice is refused with its own error and the cursor stays. */
  lemma EndedRefused(s: Session, utterance: string)
    requires CurrentNode(s).Some? && CurrentNode(s).value.isEnding
    ensures ChoiceStep(s, utterance) == (StoryEnded, s)
  {
  }

  /** A non-ending node without options refuses with a separate error. */
  lemma NoOptionsRefused(s: Session, utterance: string)
    requires CurrentNode(s).Some? && !CurrentNode(s).value.isEnding
    requires CurrentNode(s).value.options == []
    ensures ChoiceStep(s, utterance) == (NoOptions, s)
  {
  }

  /**
    When no option matches, the error lists exactly the node's option texts,
    in stored order, and nothing changes.
   */
  lemma NoMatchListsTexts(s: Session, utterance: string)
    requires CurrentNode(s).Some? && !CurrentNode(s).value.isEnding
    requires CurrentNode(s).value.options != []
    requires forall c :: c in CurrentNode(s).value.options ==> !Matches(utterance, c.text)
    ensures ChoiceStep(s, utterance).1 == s
    ensures ChoiceStep(s, utterance).0.ChoiceNotFound?
    ensures |ChoiceStep(s, utterance).0.available| == |CurrentNode(s).value.options|
    ensures forall i :: 0 <= i < |CurrentNode(s).value.options| ==>
      ChoiceStep(s, utterance).0.available[i] == CurrentNode(s).value.options[i].text
  {
  }

  /** A matched option whose target is not in the table fails and the cursor stays. */
  lemma DanglingRefused(s: Session, utterance: string, k: nat)
    requires CurrentNode(s).Some? && !CurrentNode(s).value.isEnding
    requires FirstMatch(CurrentNode(s).value.options, utterance) == Some(k)
    requires CurrentNode(s).value.options[k].nextNodeId !in s.storyData.value.allNodes
    ensures ChoiceStep(s, utterance) == (NextNodeNotFound, s)
  {
  }

  /** Every outcome other than a move leaves the whole session as it was. */
  lemma RefusalChangesNothing(s: Session, utterance: string)
    requires !ChoiceStep(s, utterance).0.Moved?
    ensures ChoiceStep(s, utterance).1 == s
  {
  }

  /**
    A choice succeeds exactly when the scan selects an option whose target is
    in the table; then only the cursor changes, to that target, and the
    result describes the target node, with the winning flag exactly on endings.
   */
  lemma MoveCharacterized(s: Session, utterance: string)
    ensures ChoiceStep(s, utterance).0.Moved? <==>
      CurrentNode(s).Some? && !CurrentNode(s).value.isEnding &&
      FirstMatch(CurrentNode(s).value.options, utterance).Some? &&
      CurrentNode(s).value.options[FirstMatch(CurrentNode(s).value.options, utterance).value].nextNodeId
        in s.storyData.value.allNodes
    ensures ChoiceStep(s, utterance).0.Moved? ==>
      var node := CurrentNode(s).value;
      var option := node.options[FirstMatch(node.options, utterance).value];
      var next := s.storyData.value.allNodes[option.nextNodeId];
      var r := ChoiceStep(s, utterance).0;
      && ChoiceStep(s, utterance).1 == s.(currentNodeId := Some(option.nextNodeId))
      && r.selectedChoice == option.text
      && r.content == next.content
      && r.isEnding == next.isEnding
      && r.options == next.options
      && (r.isWinningEnding.Some? <==> next.isEnding)
      && (next.isEnding ==> r.isWinningEnding == Some(next.isWinningEnding))
  {
  }

  /** make_choice keeps a valid cursor valid, and a move always lands on a node of the table. */
  lemma CursorStaysValid(s: Session, utterance: string)
    requires CursorValid(s)
    ensures CursorValid(ChoiceStep(s, utterance).1)
    ensures ChoiceStep(s, utterance).0.Moved? ==>
      var t := ChoiceStep(s, utterance).1;
      t.storyData.Some? && t.currentNodeId.Some? && t.currentNodeId.value in t.storyData.value.allNodes
  {
  }

  /**
    At a node whose options all lead into the table, an utterance equal to an
    option's text always moves, to that option's target or to the target of an
    earlier option that also matches.
   */
  lemma ExactChoiceMoves(s: Session, i: nat)
    requires CurrentNode(s).Some? && !CurrentNode(s).value.isEnding
    requires i < |CurrentNode(s).value.options|
    requires forall c :: c in CurrentNode(s).value.options ==> c.nextNodeId in s.storyData.value.allNodes
    ensures var options := CurrentNode(s).value.options;
      var step := ChoiceStep(s, options[i].text);
      && step.0.Moved?
      && (exists k :: 0 <= k <= i && Matches(options[i].text, options[k].text) &&
            step.1 == s.(currentNodeId := Some(options[k].nextNodeId)))
  {
  }

  /** The session after a sequence of `make_choice` calls, one per utterance. */
  function Play(s: Session, utterances: seq<string>): Session
    decreases |utterances|
  {
    if utterances == [] then s else Play(ChoiceStep(s, utterances[0]).1, utterances[1..])
  }

  /** Over any sequence of choices the cursor keeps naming a node of the table. */
  lemma {:induction false} PlayKeepsCursorValid(s: Session, utterances: seq<string>)
    requires CursorValid(s)
    ensures CursorValid(Play(s, utterances))
    decreases |utterances|
  {
    if utterances != [] {
      CursorStaysValid(s, utterances[0]);
      PlayKeepsCursorValid(ChoiceStep(s, utterances[0]).1, utterances[1..]);
    }
  }

  /** Choices move only the cursor: the story, its id and the bookkeeping stay as loaded. */
  lemma {:induction false} PlayMovesOnlyCursor(s: Session, utterances: seq<string>)
    ensures Play(s, utterances) == s.(currentNodeId := Play(s, utterances).currentNodeId)
    decreases |utterances|
  {
    if utterances != [] {
      PlayMovesOnlyCursor(ChoiceStep(s, utterances[0]).1, utterances[1..]);
    }
  }

  /** Once the cursor is at an ending, no sequence of choices moves it. */
  lemma {:induction false} EndingIsFinal(s: Session, utterances: seq<string>)
    requires CurrentNode(s).Some? && CurrentNode(s).value.isEnding
    ensures Play(s, utterances) == s
    decreases |utterances|
  {
    if utterances != [] {
      EndedRefused(s, utterances[0]);
      EndingIsFinal(s, utterances[1..]);
    }
  }

  // ---------------------------------------------------------------------
  // Properties of loading

  /**
    Loading a fetched story replaces the loaded story, the story id and the
    cursor unconditionally, puts the cursor at the root's id, keeps the job and
    session bookkeeping, and reports the payload's root.
   */
  lemma LoadReplacesCursor(s: Session, requested: Option<int>, payload: Story)
    requires Truthy(requested) || Truthy(s.currentStoryId)
    ensures var (r, t) := LoadStep(s, requested, Some(payload));
      && t.currentStoryId == (if Truthy(requested) then requested else s.currentStoryId)
      && t.storyData == Some(payload)
      && t.currentNodeId == Some(payload.rootNode.id)
      && t.sessionId == s.sessionId && t.lastJobId == s.lastJobId
      && r == Loaded(payload.id, payload.title, payload.createdAt, payload.rootNode.content,
                     payload.rootNode.isEnding, payload.rootNode.options)
  {
  }

  /** Without a usable story id, or when the fetch fails, the session is left as it was. */
  lemma LoadFailureChangesNothing(s: Session, requested: Option<int>, response: Option<Story>)
    requires !LoadStep(s, requested, response).0.Loaded?
    ensures LoadStep(s, requested, response).1 == s
    ensures LoadStep(s, requested, response).0 == (if Truthy(requested) || Truthy(s.currentStoryId) then FetchFailed else NoStoryId)
  {
  }

  /**
    When the root is in the table and has a truthy id, a load leaves the
    session active with a valid cursor at the root's table entry.
   */
  lemma LoadPositionsAtRoot(s: Session, requested: Option<int>, payload: Story)
    requires Truthy(requested) || Truthy(s.currentStoryId)
    requires RootInTable(payload) && payload.rootNode.id != 0
    ensures var t := LoadStep(s, requested, Some(payload)).1;
      && HasActiveStory(t) && CursorValid(t)
      && CurrentNode(t) == Some(payload.allNodes[payload.rootNode.id])
  {
  }

  /** A story whose root id is 0 loads, yet the session reports no active story (0 is falsy). */
  lemma ZeroRootIsInactive(s: Session, requested: Option<int>, payload: Story, utterance: string)
    requires Truthy(requested) || Truthy(s.currentStoryId)
    requires payload.rootNode.id == 0
    ensures var t := LoadStep(s, requested, Some(payload)).1;
      && t.storyData == Some(payload)
      && !HasActiveStory(t)
      && Status(t) == NoActiveStatus
      && ChoiceStep(t, utterance).0 == NoActiveStory
  {
  }

  // ---------------------------------------------------------------------
  // Properties of the read-only projections

  /** With no active story the status succeeds with "no active story" while the listing fails. */
  lemma InactiveProjections(s: Session)
    requires !HasActiveStory(s)
    ensures Status(s) == NoActiveStatus
    ensures ListOptions(s) == OptionsNoActiveStory
  {
  }

  /** The listing at a non-ending node numbers its options 1..n in stored order, texts verbatim. */
  lemma ListingNumbersOptions(s: Session)
    requires CurrentNode(s).Some? && !CurrentNode(s).value.isEnding
    ensures ListOptions(s).OptionsListed?
    ensures var listed := ListOptions(s).options;
      var options := CurrentNode(s).value.options;
      && |listed| == |options|
      && (forall i :: 0 <= i < |listed| ==> listed[i].number == i + 1 && listed[i].text == options[i].text)
      && (forall i :: 0 <= i < |listed| ==> listed[i].text == Texts(options)[i])
  {
  }

  /** At an ending the listing is empty and the status reports the ending. */
  lemma EndingProjections(s: Session)
    requires CurrentNode(s).Some? && CurrentNode(s).value.isEnding
    ensures ListOptions(s) == OptionsListed([])
    ensures Status(s).ActiveStatus? && Status(s).isEnding
  {
  }

  /** After a move to a truthy id, the status shows what the move reported. */
  lemma StatusAfterMove(s: Session, utterance: string)
    requires ChoiceStep(s, utterance).0.Moved?
    requires ChoiceStep(s, utterance).1.currentNodeId != Some(0)
    ensures var (r, t) := ChoiceStep(s, utterance);
      && Status(t).ActiveStatus?
      && Status(t).content == r.content
      && Status(t).isEnding == r.isEnding
      && Status(t).options == r.options
  {
  }

  // ---------------------------------------------------------------------
  // An end-to-end run

  const Root := Node(1, "You stand before a door.", false, false, [Choice("open the door", 2)])
  const Hall := Node(2, "A hall with a portal.", false, false, [Choice("step through", 3)])
  const Treasure := Node(3, "You found the treasure.", true, true, [])
  const Demo := Story(7, "The Door", "2024-01-01", Root, map[1 := Root, 2 := Hall, 3 := Treasure])

  /**
    Loading the three-node story, then choosing "door" and "step through",
    ends at the winning ending.
   */
  lemma ThreeNodeRun()
    ensures var t0 := LoadStep(Initial, Some(7), Some(Demo)).1;
      var (r1, t1) := ChoiceStep(t0, "door");
      var (r2, t2) := ChoiceStep(t1, "step through");
      && t1.currentNodeId == Some(2)
      && r1.Moved? && r1.options == [Choice("step through", 3)] && !r1.isEnding
      && t2.currentNodeId == Some(3)
      && r2.Moved? && r2.isEnding && r2.isWinningEnding == Some(true)
      && ChoiceStep(t2, "anything").0 == StoryEnded
  {
    assert Text.Lower("door") == "door";
    assert Text.Lower("open the door") == "open the door";
    assert Text.OccursAt("open the door", "door", 9);
    assert Matches("door", "open the door");
    ExactTextResolves(Hall.options, 0);
  }
}
