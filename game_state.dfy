/**
  The tool server's process-wide game state and the tools that read and
  update it in place. Each method is proved to perform exactly the step the
  corresponding `Navigator` function describes.
 */
module McpServer {
  import opened Options
  import opened Text
  import opened Stories
  import opened Matching
  import opened Navigator

  class GameState {
    var currentStoryId: Option<int>
    var currentNodeId: Option<int>
    var sessionId: Option<string>
    var lastJobId: Option<string>
    var storyData: Option<Story>

    /** The state as a value. */
    function Snapshot(): Session
      reads this
    {
      Session(currentStoryId, currentNodeId, sessionId, lastJobId, storyData)
    }

    /** The dataclass defaults: every field unset. */
    constructor ()
      ensures Snapshot() == Initial
    {
      currentStoryId, currentNodeId, sessionId, lastJobId, storyData := None, None, None, None, None;
    }

    /**
      `get_story` after the fetch: `response` is the service's reply for the
      resolved id. Only the story id, the story and the cursor may change.
     */
    method GetStory(requested: Option<int>, response: Option<Story>) returns (r: LoadResult)
      modifies this`currentStoryId, this`storyData, this`currentNodeId
      ensures (r, Snapshot()) == LoadStep(old(Snapshot()), requested, response)
    {
      var storyId := requested;
      if storyId.None? || storyId.value == 0 {
        storyId := currentStoryId;
      }
      if storyId.None? || storyId.value == 0 {
        return NoStoryId;
      }
      if response.None? {
        return FetchFailed;
      }
      var payload := response.value;
      currentStoryId := storyId;
      storyData := Some(payload);
      currentNodeId := Some(payload.rootNode.id);
      var root := payload.rootNode;
      r := Loaded(payload.id, payload.title, payload.createdAt, root.content, root.isEnding, root.options);
    }

    /**
      `make_choice`: scans the current node's options for the first match and
      moves the cursor to its target. Only the cursor may change.
     */
    method MakeChoice(utterance: string) returns (r: ChoiceResult)
      modifies this`currentNodeId
      ensures (r, Snapshot()) == ChoiceStep(old(Snapshot()), utterance)
    {
      if storyData.None? || currentNodeId.None? || currentNodeId.value == 0 {
        return NoActiveStory;
      }
      var story := storyData.value;
      var id := currentNodeId.value;
      if id !in story.allNodes {
        return CurrentNodeNotFound;
      }
      var node := story.allNodes[id];
      if node.isEnding {
        return StoryEnded;
      }
      var options := node.options;
      if |options| == 0 {
        return NoOptions;
      }
      var selected: Option<nat> := None;
      var choiceLower := Lower(utterance);
      var i := 0;
      while i < |options|
        invariant 0 <= i <= |options|
        invariant selected.None?
        invariant forall j :: 0 <= j < i ==> !Matches(utterance, options[j].text)
      {
        var optionLower := Lower(options[i].text);
        if Contains(optionLower, choiceLower) || Contains(choiceLower, optionLower) {
          selected := Some(i);
          break;
        }
        i := i + 1;
      }
      if selected.None? {
        return ChoiceNotFound(Texts(options));
      }
      var option := options[selected.value];
      var nextNodeId := option.nextNodeId;
      if nextNodeId !in story.allNodes {
        return NextNodeNotFound;
      }
      var next := story.allNodes[nextNodeId];
      currentNodeId := Some(nextNodeId);
      r := Moved(option.text, next.content, next.isEnding, next.options,
                 if next.isEnding then Some(next.isWinningEnding) else None);
    }

    /** `get_current_status`: reads the state and changes nothing. */
    method GetCurrentStatus() returns (r: StatusResult)
      ensures r == Status(Snapshot())
    {
      if storyData.None? || currentNodeId.None? || currentNodeId.value == 0 {
        return NoActiveStatus;
      }
      var story := storyData.value;
      if currentNodeId.value !in story.allNodes {
        return StatusError;
      }
      var node := story.allNodes[currentNodeId.value];
      r := ActiveStatus(currentStoryId, story.title, node.content, node.isEnding, node.options, sessionId);
    }

    /** `list_available_options`: reads the state and changes nothing. */
    method ListAvailableOptions() returns (r: OptionsResult)
      ensures r == ListOptions(Snapshot())
    {
      if storyData.None? || currentNodeId.None? || currentNodeId.value == 0 {
        return OptionsNoActiveStory;
      }
      var story := storyData.value;
      if currentNodeId.value !in story.allNodes {
        return OptionsError;
      }
      var node := story.allNodes[currentNodeId.value];
      if node.isEnding {
        return OptionsListed([]);
      }
      r := OptionsListed(Numbered(node.options));
    }
  }

  /** Two status reads in a row, or two listings in a row, give identical results. */
  method ReadsAreRepeatable(g: GameState) returns (s1: StatusResult, s2: StatusResult, l1: OptionsResult, l2: OptionsResult)
    ensures s1 == s2 && l1 == l2
    ensures s1 == Status(g.Snapshot()) && l1 == ListOptions(g.Snapshot())
  {
    s1 := g.GetCurrentStatus();
    s2 := g.GetCurrentStatus();
    l1 := g.ListAvailableOptions();
    l2 := g.ListAvailableOptions();
  }
}
