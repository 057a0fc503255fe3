/** The story player: which story is open, which node of it is shown, and
    where to return in the story list. Stories are static data; a story is a
    graph of nodes keyed by id, and each node is an ending or offers choices
    that name the next node. */
module StoryPlayer {
  import opened Wrappers

  datatype Choice = Choice(text: string, next: string)
  datatype Node = Node(text: Option<string>, ending: bool, choices: seq<Choice>)
  datatype Story = Story(id: string, title: string, image: string, nodes: map<string, Node>)

  /** The id of the node every story opens at. */
  const StartNode := "start"

  /** `STORIES.find(s => s.id === storyId)`: the first story with that id. */
  function FindStory(stories: seq<Story>, id: string): (r: Option<Story>)
    ensures r.None? <==> forall k :: 0 <= k < |stories| ==> stories[k].id != id
    ensures r.Some? ==>
      exists i :: 0 <= i < |stories| && stories[i] == r.value && r.value.id == id &&
                  (forall k :: 0 <= k < i ==> stories[k].id != id)
  {
    if stories == [] then None
    else if stories[0].id == id then Some(stories[0])
    else
      var r := FindStory(stories[1..], id);
      assert forall k :: 0 < k < |stories| ==> stories[k] == stories[1..][k - 1];
      r
  }

  /** The list's scroll position: the first non-zero of the window, document and body
      offsets, or 0 when all three are 0. */
  function ScrollPosition(windowY: int, documentTop: int, bodyTop: int): (y: int)
    ensures windowY != 0 ==> y == windowY
    ensures windowY == 0 && documentTop != 0 ==> y == documentTop
    ensures windowY == 0 && documentTop == 0 ==> y == bodyTop
  {
    if windowY != 0 then windowY else if documentTop != 0 then documentTop else bodyTop
  }

  /** Some choice of node `from` of `story` leads to node `to`. */
  ghost predicate Leads(story: Story, from: string, to: string)
  {
    from in story.nodes && exists c :: c in story.nodes[from].choices && c.next == to
  }

  /** `route` is a walk through `story` that starts at the start node, follows a choice
      at every step and ends at `id`. */
  ghost predicate IsRoute(story: Story, route: seq<string>, id: string)
  {
    && |route| >= 1
    && route[0] == StartNode
    && route[|route| - 1] == id
    && forall i :: 0 < i < |route| ==> Leads(story, route[i - 1], route[i])
  }

  /** The buttons `renderNode` puts under a node. */
  datatype Action = Choose(choice: Choice) | Restart | BackToList

  /** The buttons under `node`: restart and back for an ending, one button per choice otherwise. */
  function ActionsFor(node: Node): (r: seq<Action>)
    ensures node.ending ==> r == [Restart, BackToList]
    ensures !node.ending ==>
      |r| == |node.choices| && forall i :: 0 <= i < |r| ==> r[i] == Choose(node.choices[i])
    ensures Restart in r <==> node.ending
    ensures BackToList in r <==> node.ending
    ensures forall c :: Choose(c) in r <==> !node.ending && c in node.choices
  {
    if node.ending then [Restart, BackToList]
    else
      var r := seq(|node.choices|, i requires 0 <= i < |node.choices| => Choose(node.choices[i]));
      assert forall c :: c in node.choices ==> Choose(c) in r by {
        forall c | c in node.choices ensures Choose(c) in r {
          var i :| 0 <= i < |node.choices| && node.choices[i] == c;
          assert r[i] == Choose(c);
        }
      }
      r
  }

  /** The module-level player variables of the page. */
  class Player {
    const stories: seq<Story>
    var currentStory: Option<Story>
    var currentNodeId: Option<string>
    var lastScrollY: int
    var lastStoryId: Option<string>
    /** The nodes visited since the story was opened or restarted. */
    ghost var route: seq<string>

    /** An open story is one of the stories, and its current node is reached from the
        start node by following choices, as `route` witnesses. */
    ghost predicate Valid()
      reads this
    {
      currentStory.Some? ==>
        && currentStory.value in stories
        && currentNodeId.Some?
        && IsRoute(currentStory.value, route, currentNodeId.value)
    }

    constructor (stories: seq<Story>)
      ensures Valid() && this.stories == stories
      ensures currentStory == None && currentNodeId == None
      ensures lastScrollY == 0 && lastStoryId == None
    {
      this.stories := stories;
      currentStory := None;
      currentNodeId := None;
      lastScrollY := 0;
      lastStoryId := None;
      route := [];
    }

    /** `getNode()`: the node shown, absent when no story is open or the id names no node. */
    function CurrentNode(): (n: Option<Node>)
      reads this
      ensures n.Some? <==>
        (currentStory.Some? && currentNodeId.Some? && currentNodeId.value in currentStory.value.nodes)
      ensures n.Some? ==> n.value == currentStory.value.nodes[currentNodeId.value]
    {
      if currentStory.Some? && currentNodeId.Some? && currentNodeId.value in currentStory.value.nodes
      then Some(currentStory.value.nodes[currentNodeId.value])
      else None
    }

    /** The buttons on screen under the current node. */
    function Offered(): (r: seq<Action>)
      reads this
      ensures CurrentNode().None? ==> r == []
      ensures CurrentNode().Some? ==> r == ActionsFor(CurrentNode().value)
    {
      match CurrentNode()
      case None => []
      case Some(node) => ActionsFor(node)
    }

    /** `openStory(storyId)`: remembers where the list was (from the window, document
        and body scroll offsets read at the click), then opens the story at its start
        node; an unknown id leaves no story open and the node id as it was. */
    method OpenStory(storyId: string, windowY: int, documentTop: int, bodyTop: int)
      requires Valid()
      modifies this
      ensures Valid()
      ensures lastScrollY == ScrollPosition(windowY, documentTop, bodyTop)
      ensures lastStoryId == Some(storyId)
      ensures currentStory == FindStory(stories, storyId)
      ensures currentStory.Some? ==> currentNodeId == Some(StartNode) && route == [StartNode]
      ensures currentStory.None? ==> currentNodeId == old(currentNodeId) && route == old(route)
    {
      lastScrollY := ScrollPosition(windowY, documentTop, bodyTop);
      lastStoryId := Some(storyId);
      currentStory := FindStory(stories, storyId);
      if currentStory.None? {
        return;
      }
      currentNodeId := Some(StartNode);
      route := [StartNode];
    }

    /** A click on the button of `choice`: moves to the node it names. */
    method ChooseChoice(choice: Choice)
      requires Valid() && Choose(choice) in Offered()
      modifies this
      ensures Valid()
      ensures currentNodeId == Some(choice.next)
      ensures currentStory == old(currentStory)
      ensures lastScrollY == old(lastScrollY) && lastStoryId == old(lastStoryId)
      ensures route == old(route) + [choice.next]
    {
      assert choice in currentStory.value.nodes[currentNodeId.value].choices;
      assert Leads(currentStory.value, currentNodeId.value, choice.next);
      currentNodeId := Some(choice.next);
      route := route + [choice.next];
    }

    /** A click on "start again" under an ending: back to the start node of the same story. */
    method Restart()
      requires Valid() && Action.Restart in Offered()
      modifies this
      ensures Valid()
      ensures currentNodeId == Some(StartNode)
      ensures currentStory == old(currentStory)
      ensures lastScrollY == old(lastScrollY) && lastStoryId == old(lastStoryId)
      ensures route == [StartNode]
    {
      currentNodeId := Some(StartNode);
      route := [StartNode];
    }

    /** `goHome()`: closes the story; the remembered list position is kept for restoring. */
    method GoHome()
      requires Valid()
      modifies this
      ensures Valid()
      ensures currentStory == None && currentNodeId == None
      ensures lastScrollY == old(lastScrollY) && lastStoryId == old(lastStoryId)
    {
      currentStory := None;
      currentNodeId := None;
    }
  }
}
