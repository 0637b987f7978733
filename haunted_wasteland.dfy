/** Haunted Wasteland: the first line is a list of left/right instructions, the others
    are nodes "NAME = (LEFT, RIGHT)". Part 1 follows the instructions, over and over,
    from AAA until it reaches ZZZ; part 2 does the same from every node whose name ends
    in 'A', until a name ending in 'Z', and combines the step counts with a least common
    multiple. */
module HauntedWasteland {
  import opened Wrappers
  import opened Text

  datatype Instruction = Left | Right

  datatype Node = Node(name: string, left: string, right: string)

  /** The `BTreeMap` from names to nodes. */
  type Network = map<string, Node>

  /** `Node::get_next`. */
  function GetNext(node: Node, instruction: Instruction): string {
    match instruction
    case Left => node.left
    case Right => node.right
  }

  // ---------------------------------------------------------------- parsing

  /** `parse_instructions`: L and R, anything else is the panic. */
  function ParseInstructions(line: string): (r: Result<seq<Instruction>>)
    ensures r.Ok? ==> |r.value| == |line|
    decreases |line|
  {
    if line == [] then Ok([])
    else
      match ParseInstructions(line[..|line| - 1])
      case Err(e) => Err(e)
      case Ok(init) =>
        var c := line[|line| - 1];
        if c == 'L' then Ok(init + [Left])
        else if c == 'R' then Ok(init + [Right])
        else Err("Unexpected instruction")
  }

  function InstructionChar(i: Instruction): char {
    match i
    case Left => 'L'
    case Right => 'R'
  }

  function InstructionLine(instructions: seq<Instruction>): (line: string)
    ensures |line| == |instructions|
    ensures forall k :: 0 <= k < |line| ==> line[k] == InstructionChar(instructions[k])
  {
    seq(|instructions|, k requires 0 <= k < |instructions| => InstructionChar(instructions[k]))
  }

  /** The instructions read one character each: the line fails exactly when one of its
      characters is neither L nor R, and the instructions written out are read back. */
  lemma ParseInstructionsSpec(line: string)
    ensures ParseInstructions(line).Ok? <==> forall k :: 0 <= k < |line| ==> line[k] == 'L' || line[k] == 'R'
    ensures ParseInstructions(line).Ok? ==> InstructionLine(ParseInstructions(line).value) == line
  {
    ParseInstructionsOk(line);
    if ParseInstructions(line).Ok? {
      ParseInstructionsChars(line);
      var written := InstructionLine(ParseInstructions(line).value);
      assert forall k :: 0 <= k < |line| ==> written[k] == line[k];
    }
  }

  lemma {:induction false} ParseInstructionsOk(line: string)
    ensures ParseInstructions(line).Ok? <==> forall k :: 0 <= k < |line| ==> line[k] == 'L' || line[k] == 'R'
    decreases |line|
  {
    if line != [] {
      var init := line[..|line| - 1];
      ParseInstructionsOk(init);
      assert forall k :: 0 <= k < |init| ==> init[k] == line[k];
    }
  }

  lemma {:induction false} ParseInstructionsChars(line: string)
    requires ParseInstructions(line).Ok?
    ensures forall k :: 0 <= k < |line| ==> InstructionChar(ParseInstructions(line).value[k]) == line[k]
    decreases |line|
  {
    if line != [] {
      var init := line[..|line| - 1];
      ParseInstructionsChars(init);
      var ins := ParseInstructions(line).value;
      assert ins[..|init|] == ParseInstructions(init).value;
      assert forall k :: 0 <= k < |init| ==> ins[k] == ins[..|init|][k] && init[k] == line[k];
    }
  }

  lemma InstructionsRoundTrip(instructions: seq<Instruction>)
    ensures ParseInstructions(InstructionLine(instructions)) == Ok(instructions)
  {
    var line := InstructionLine(instructions);
    ParseInstructionsSpec(line);
    assert forall k :: 0 <= k < |line| ==> line[k] == InstructionChar(instructions[k]);
    var parsed := ParseInstructions(line).value;
    forall k | 0 <= k < |instructions|
      ensures parsed[k] == instructions[k]
    {
      assert InstructionLine(parsed)[k] == line[k];
    }
    assert parsed == instructions;
  }

  /** nom's `tag` at position i. */
  predicate TagAt(s: string, i: nat, tag: string) {
    i + |tag| <= |s| && s[i..i + |tag|] == tag
  }

  /** `parse_node`: a name, " = (", the left name, ", ", the right name; whatever
      follows (the closing parenthesis) is not read. Names are runs of ASCII letters. */
  function ParseNode(line: string): Result<Node> {
    var a := SpanEnd(line, 0, IsAlpha);
    if a == 0 || !TagAt(line, a, " = (") then Err("Could not parse node")
    else
      var c := SpanEnd(line, a + 4, IsAlpha);
      if c == a + 4 || !TagAt(line, c, ", ") then Err("Could not parse node")
      else
        var e := SpanEnd(line, c + 2, IsAlpha);
        if e == c + 2 then Err("Could not parse node")
        else Ok(Node(line[..a], line[a + 4..c], line[c + 2..e]))
  }

  /** A non-empty run of ASCII letters. */
  predicate IsName(s: string) {
    |s| > 0 && forall k :: 0 <= k < |s| ==> IsAlpha(s[k])
  }

  function NodeLine(n: Node): string {
    n.name + " = (" + n.left + ", " + n.right + ")"
  }

  /** The run of letters starting at i is the name written there. */
  lemma NameAt(s: string, i: nat, name: string)
    requires IsName(name) && i + |name| <= |s| && s[i..i + |name|] == name
    requires i + |name| < |s| && !IsAlpha(s[i + |name|])
    ensures SpanEnd(s, i, IsAlpha) == i + |name|
  {
    assert forall k :: i <= k < i + |name| ==> s[k] == name[k - i];
    SpanEndAt(s, i, i + |name|, IsAlpha);
  }

  /** A node written out is read back. */
  lemma ParseNodeRoundTrip(n: Node)
    requires IsName(n.name) && IsName(n.left) && IsName(n.right)
    ensures ParseNode(NodeLine(n)) == Ok(n)
  {
    NodeLinePieces(n);
    ParseNodePieces(NodeLine(n), n);
  }

  /** A line holding the pieces of a node where NodeLine puts them reads as that node. */
  lemma ParseNodePieces(s: string, n: Node)
    requires IsName(n.name) && IsName(n.left) && IsName(n.right)
    requires var a := |n.name|;
             var c := a + 4 + |n.left|;
             var e := c + 2 + |n.right|;
             && |s| == e + 1 && s[..a] == n.name && s[a..a + 4] == " = (" && s[a + 4..c] == n.left
             && s[c..c + 2] == ", " && s[c + 2..e] == n.right && s[a] == ' ' && s[c] == ',' && s[e] == ')'
    ensures ParseNode(s) == Ok(n)
  {
    NodeNamesEnd(s, n);
    var a := |n.name|;
    var c := a + 4 + |n.left|;
    ParseNodeOf(s, a, c, c + 2 + |n.right|, n);
  }

  /** Where the three names of a node laid out in s end. */
  lemma NodeNamesEnd(s: string, n: Node)
    requires IsName(n.name) && IsName(n.left) && IsName(n.right)
    requires var a := |n.name|;
             var c := a + 4 + |n.left|;
             var e := c + 2 + |n.right|;
             && |s| == e + 1 && s[..a] == n.name && s[a..a + 4] == " = (" && s[a + 4..c] == n.left
             && s[c..c + 2] == ", " && s[c + 2..e] == n.right && s[a] == ' ' && s[c] == ',' && s[e] == ')'
    ensures var a := |n.name|;
            var c := a + 4 + |n.left|;
            && SpanEnd(s, 0, IsAlpha) == a && SpanEnd(s, a + 4, IsAlpha) == c
            && SpanEnd(s, c + 2, IsAlpha) == c + 2 + |n.right|
  {
    var a := |n.name|;
    var c := a + 4 + |n.left|;
    NameAt(s, 0, n.name);
    NameAt(s, a + 4, n.left);
    NameAt(s, c + 2, n.right);
  }

  /** ParseNode from where its three names end: the node of those three names. */
  lemma ParseNodeOf(s: string, a: nat, c: nat, e: nat, n: Node)
    requires 0 < a && a + 4 < c && c + 2 < e <= |s|
    requires SpanEnd(s, 0, IsAlpha) == a && TagAt(s, a, " = (")
    requires SpanEnd(s, a + 4, IsAlpha) == c && TagAt(s, c, ", ")
    requires SpanEnd(s, c + 2, IsAlpha) == e
    requires s[..a] == n.name && s[a + 4..c] == n.left && s[c + 2..e] == n.right
    ensures ParseNode(s) == Ok(n)
  {
  }

  /** Where the pieces of a written node sit. */
  lemma NodeLinePieces(n: Node)
    ensures var s, a := NodeLine(n), |n.name|;
            var c := a + 4 + |n.left|;
            var e := c + 2 + |n.right|;
            && |s| == e + 1 && s[..a] == n.name && s[a..a + 4] == " = (" && s[a + 4..c] == n.left
            && s[c..c + 2] == ", " && s[c + 2..e] == n.right && s[a] == ' ' && s[c] == ',' && s[e] == ')'
  {
    var s1 := n.name + " = (";
    var s2 := s1 + n.left;
    var s3 := s2 + ", ";
    var s4 := s3 + n.right;
    assert NodeLine(n) == s4 + ")";
  }

  /** The node lines, or the failure of the first one that fails. */
  function ParseNodes(lines: seq<string>): (r: Result<seq<Node>>)
    ensures r.Ok? ==> |r.value| == |lines|
    decreases |lines|
  {
    if lines == [] then Ok([])
    else
      match ParseNodes(lines[..|lines| - 1])
      case Err(e) => Err(e)
      case Ok(init) =>
        match ParseNode(lines[|lines| - 1])
        case Err(e) => Err(e)
        case Ok(n) => Ok(init + [n])
  }

  /** The map after inserting the nodes in order, each under its own name. */
  function BuildNetwork(nodes: seq<Node>): Network
    decreases |nodes|
  {
    if nodes == [] then map[]
    else
      var last := nodes[|nodes| - 1];
      BuildNetwork(nodes[..|nodes| - 1])[last.name := last]
  }

  /** Every node is stored under its own name. */
  predicate WellNamed(network: Network) {
    forall name :: name in network ==> network[name].name == name
  }

  /** No later node of the list has the name of node k. */
  predicate LastOfName(nodes: seq<Node>, k: nat)
    requires k < |nodes|
  {
    forall j :: k < j < |nodes| ==> nodes[j].name != nodes[k].name
  }

  /** The map holds every name of the list, under it the last node of that name, and
      nothing else. */
  lemma BuildNetworkSpec(nodes: seq<Node>)
    ensures WellNamed(BuildNetwork(nodes))
    ensures BuildNetwork(nodes).Keys == set n | n in nodes :: n.name
    ensures forall k :: 0 <= k < |nodes| && LastOfName(nodes, k) ==> BuildNetwork(nodes)[nodes[k].name] == nodes[k]
  {
    BuildNetworkNamed(nodes);
    BuildNetworkKeys(nodes);
    BuildNetworkLast(nodes);
  }

  lemma {:induction false} BuildNetworkNamed(nodes: seq<Node>)
    ensures WellNamed(BuildNetwork(nodes))
    decreases |nodes|
  {
    if nodes != [] {
      BuildNetworkNamed(nodes[..|nodes| - 1]);
    }
  }

  lemma {:induction false} BuildNetworkKeys(nodes: seq<Node>)
    ensures BuildNetwork(nodes).Keys == set n | n in nodes :: n.name
    decreases |nodes|
  {
    if nodes != [] {
      var init := nodes[..|nodes| - 1];
      var last := nodes[|nodes| - 1];
      BuildNetworkKeys(init);
      assert nodes == init + [last];
      NamesSnoc(init, last);
    }
  }

  lemma {:induction false} BuildNetworkLast(nodes: seq<Node>)
    ensures forall k :: 0 <= k < |nodes| && LastOfName(nodes, k) ==>
      nodes[k].name in BuildNetwork(nodes) && BuildNetwork(nodes)[nodes[k].name] == nodes[k]
    decreases |nodes|
  {
    BuildNetworkKeys(nodes);
    if nodes != [] {
      var init := nodes[..|nodes| - 1];
      var last := nodes[|nodes| - 1];
      BuildNetworkLast(init);
      BuildNetworkKeys(init);
      var network := BuildNetwork(nodes);
      assert network == BuildNetwork(init)[last.name := last];
      forall k | 0 <= k < |nodes| - 1 && LastOfName(nodes, k)
        ensures network[nodes[k].name] == nodes[k]
      {
        assert init[k] == nodes[k];
        assert LastOfName(init, k);
        assert nodes[k].name != last.name;
        assert nodes[k] in init;
      }
    }
  }

  /** The names of a list with one more node: those before and the new one. */
  lemma NamesSnoc(init: seq<Node>, last: Node)
    ensures (set n | n in init + [last] :: n.name) == (set n | n in init :: n.name) + {last.name}
  {
    assert forall n :: n in init + [last] <==> n in init || n == last;
  }

  /** `solve` up to the walk: the instruction line, one line skipped, then the nodes. */
  function ParseInput(lines: seq<string>): Result<(seq<Instruction>, Network)> {
    if lines == [] then Err("instruction line not found")
    else
      match ParseInstructions(lines[0])
      case Err(e) => Err(e)
      case Ok(instructions) =>
        match ParseNodes(if |lines| < 2 then [] else lines[2..])
        case Err(e) => Err(e)
        case Ok(nodes) => Ok((instructions, BuildNetwork(nodes)))
  }

  /** The reading loop of `solve`: every node line is parsed and inserted into the map. */
  method Load(lines: seq<string>) returns (r: Result<(seq<Instruction>, Network)>)
    ensures r == ParseInput(lines)
    ensures r.Ok? ==> WellNamed(r.value.1)
  {
    if lines == [] {
      return Err("instruction line not found");
    }
    var instructions := ParseInstructions(lines[0]);
    if instructions.Err? {
      return Err(instructions.error);
    }
    var rest := if |lines| < 2 then [] else lines[2..];
    var nodes: Network := map[];
    ghost var parsed: seq<Node> := [];
    for k := 0 to |rest|
      invariant ParseNodes(rest[..k]) == Ok(parsed)
      invariant nodes == BuildNetwork(parsed)
    {
      assert rest[..k + 1][..k] == rest[..k];
      var node := ParseNode(rest[k]);
      if node.Err? {
        ParseNodesFails(rest, k + 1);
        return Err(node.error);
      }
      nodes := nodes[node.value.name := node.value];
      parsed := parsed + [node.value];
      assert parsed[..|parsed| - 1] == parsed[..k];
    }
    assert rest[..|rest|] == rest;
    BuildNetworkSpec(parsed);
    r := Ok((instructions.value, nodes));
  }

  lemma {:induction false} ParseNodesFails(lines: seq<string>, n: nat)
    requires n <= |lines| && ParseNodes(lines[..n]).Err?
    ensures ParseNodes(lines) == ParseNodes(lines[..n])
    decreases |lines| - n
  {
    if n < |lines| {
      assert lines[..n + 1][..n] == lines[..n];
      ParseNodesFails(lines, n + 1);
    } else {
      assert lines[..n] == lines;
    }
  }

  // ---------------------------------------------------------------- the walk

  /** The index of the instruction step j + 1 follows: the next one, or the first
      again once they have run out. */
  function Cursor(n: nat, j: nat): (r: nat)
    requires n > 0
    ensures r < n
  {
    if j == 0 then 0
    else if Cursor(n, j - 1) + 1 < n then Cursor(n, j - 1) + 1
    else 0
  }

  /** The instructions repeat with period n: step j + 1 follows instruction j mod n. */
  lemma {:induction false} CursorIsMod(n: nat, j: nat)
    requires n > 0
    ensures Cursor(n, j) == j % n
  {
    if j > 0 {
      CursorIsMod(n, j - 1);
      ModSucc(n, j - 1);
    }
  }

  /** The remainder of x + 1 is one more than that of x, or 0 when that reaches n. */
  lemma ModSucc(n: nat, x: nat)
    requires n > 0
    ensures (x + 1) % n == if x % n + 1 < n then x % n + 1 else 0
  {
    var q := x / n;
    var r := x % n;
    assert x == n * q + r;
    if r + 1 < n {
      ModUnique(n, q, r + 1, x + 1);
    } else {
      assert x + 1 == n * (q + 1) by {
        assert n * (q + 1) == n * q + n;
      }
      ModUnique(n, q + 1, 0, x + 1);
    }
  }

  /** x mod n is the remainder of any division of x by n. */
  lemma ModUnique(n: nat, q: int, r: int, x: int)
    requires n > 0 && 0 <= r < n && x == n * q + r
    ensures x % n == r
  {
    var q', r' := x / n, x % n;
    assert n * (q - q') == r' - r by {
      assert n * (q - q') == n * q - n * q';
    }
    var d := q - q';
    if d >= 1 {
      MulAtLeast(n, d);
    } else if d <= -1 {
      MulAtLeast(n, -d);
    }
  }

  lemma MulAtLeast(g: int, d: int)
    requires g >= 1 && d >= 1
    ensures g * d >= g
  {
    assert g * d == g * (d - 1) + g;
    assert g * (d - 1) >= 0;
  }

  /** Where the walk from start is after k steps: each step follows the instruction at
      the cursor, and a name missing from the map is the panic. */
  function Walk(network: Network, instructions: seq<Instruction>, start: Node, k: nat): Result<Node>
    requires |instructions| > 0
    decreases k
  {
    if k == 0 then Ok(start)
    else
      match Walk(network, instructions, start, k - 1)
      case Err(e) => Err(e)
      case Ok(node) =>
        var next := GetNext(node, instructions[Cursor(|instructions|, k - 1)]);
        if next in network then Ok(network[next]) else Err("Unknown node")
  }

  /** Steps 1 to k - 1 all landed on a node whose name is not a goal. */
  ghost predicate NoArrivalBefore(network: Network, instructions: seq<Instruction>, start: Node,
                            goal: string -> bool, k: nat)
    requires |instructions| > 0
  {
    forall j :: 1 <= j < k ==>
      Walk(network, instructions, start, j).Ok? && !goal(Walk(network, instructions, start, j).value.name)
  }

  /** Step k is the first to reach a goal. */
  ghost predicate FirstArrival(network: Network, instructions: seq<Instruction>, start: Node,
                         goal: string -> bool, k: nat)
    requires |instructions| > 0
  {
    && k >= 1
    && NoArrivalBefore(network, instructions, start, goal, k)
    && Walk(network, instructions, start, k).Ok?
    && goal(Walk(network, instructions, start, k).value.name)
  }

  /** Step k is the first to fail, before any goal was reached. */
  ghost predicate FirstFailure(network: Network, instructions: seq<Instruction>, start: Node,
                         goal: string -> bool, k: nat)
    requires |instructions| > 0
  {
    && k >= 1
    && NoArrivalBefore(network, instructions, start, goal, k)
    && Walk(network, instructions, start, k) == Err("Unknown node")
  }

  /** The walk ends: some step reaches a goal or fails. The loops of `solve` run until
      one does, and never end otherwise. */
  ghost predicate WalkStops(network: Network, instructions: seq<Instruction>, start: Node, goal: string -> bool)
    requires |instructions| > 0
  {
    exists k :: k >= 1 && (Walk(network, instructions, start, k).Err?
                           || goal(Walk(network, instructions, start, k).value.name))
  }

  /** The walk reaches a goal first at most once. */
  lemma FirstArrivalUnique(network: Network, instructions: seq<Instruction>, start: Node,
                           goal: string -> bool, k: nat, l: nat)
    requires |instructions| > 0
    requires FirstArrival(network, instructions, start, goal, k)
    requires FirstArrival(network, instructions, start, goal, l)
    ensures k == l
  {
  }

  lemma WalkStep(network: Network, instructions: seq<Instruction>, start: Node, k: nat, node: Node)
    requires |instructions| > 0 && Walk(network, instructions, start, k) == Ok(node)
    ensures var next := GetNext(node, instructions[Cursor(|instructions|, k)]);
            Walk(network, instructions, start, k + 1)
            == if next in network then Ok(network[next]) else Err("Unknown node")
  {
  }

  /** The walking loop of both parts: the instructions are taken in order and started
      again when they run out, every step moves to the named child, and the loop stops
      at the first node whose name is a goal. */
  method StepsUntil(network: Network, instructions: seq<Instruction>, start: Node, goal: string -> bool)
    returns (r: Result<nat>)
    requires |instructions| > 0 && WalkStops(network, instructions, start, goal)
    ensures r.Ok? ==> FirstArrival(network, instructions, start, goal, r.value)
    ensures r.Err? ==> r.error == "Unknown node"
                       && exists k :: FirstFailure(network, instructions, start, goal, k)
  {
    ghost var bound :| bound >= 1 && (Walk(network, instructions, start, bound).Err?
                                      || goal(Walk(network, instructions, start, bound).value.name));
    var steps := 0;
    var cursor := 0;
    var current := start;
    while true
      invariant 0 <= cursor <= |instructions|
      invariant (if cursor < |instructions| then cursor else 0) == Cursor(|instructions|, steps)
      invariant Walk(network, instructions, start, steps) == Ok(current)
      invariant NoArrivalBefore(network, instructions, start, goal, steps + 1)
      invariant steps < bound
      decreases bound - steps
    {
      var instruction;
      if cursor < |instructions| {
        instruction := instructions[cursor];
        cursor := cursor + 1;
      } else {
        instruction := instructions[0];
        cursor := 1;
      }
      WalkStep(network, instructions, start, steps, current);
      steps := steps + 1;
      var nextName := GetNext(current, instruction);
      if nextName !in network {
        assert FirstFailure(network, instructions, start, goal, steps);
        return Err("Unknown node");
      }
      current := network[nextName];
      if goal(current.name) {
        return Ok(steps);
      }
    }
  }

  // ---------------------------------------------------------------- part 1

  predicate IsGoalOne(name: string) {
    name == "ZZZ"
  }

  /** Part 1 `solve`: the number of steps from AAA to ZZZ. */
  method Part1(lines: seq<string>) returns (r: Result<nat>)
    requires ParseInput(lines).Ok? && |ParseInput(lines).value.0| > 0 && "AAA" in ParseInput(lines).value.1 ==>
               var (instructions, network) := ParseInput(lines).value;
               WalkStops(network, instructions, network["AAA"], IsGoalOne)
    ensures ParseInput(lines).Err? ==> r == Err(ParseInput(lines).error)
    ensures ParseInput(lines).Ok? && "AAA" !in ParseInput(lines).value.1 ==> r == Err("Could not find starting node")
    ensures ParseInput(lines).Ok? && "AAA" in ParseInput(lines).value.1 && ParseInput(lines).value.0 == [] ==>
              r == Err("We expected the first instruction again")
    ensures ParseInput(lines).Ok? && "AAA" in ParseInput(lines).value.1 && |ParseInput(lines).value.0| > 0 && r.Err? ==>
              var (instructions, network) := ParseInput(lines).value;
              r.error == "Unknown node" && exists k :: FirstFailure(network, instructions, network["AAA"], IsGoalOne, k)
    ensures r.Ok? ==> (ParseInput(lines).Ok? && "AAA" in ParseInput(lines).value.1 &&
              var (instructions, network) := ParseInput(lines).value;
              |instructions| > 0 && FirstArrival(network, instructions, network["AAA"], IsGoalOne, r.value))
  {
    var input := Load(lines);
    if input.Err? {
      return Err(input.error);
    }
    var (instructions, network) := input.value;
    if "AAA" !in network {
      return Err("Could not find starting node");
    }
    if instructions == [] {
      return Err("We expected the first instruction again");
    }
    r := StepsUntil(network, instructions, network["AAA"], IsGoalOne);
  }

  function FirstExampleNetwork(): Network {
    map["AAA" := Node("AAA", "BBB", "CCC"), "BBB" := Node("BBB", "DDD", "EEE"), "CCC" := Node("CCC", "ZZZ", "GGG"),
        "DDD" := Node("DDD", "DDD", "DDD"), "EEE" := Node("EEE", "EEE", "EEE"), "GGG" := Node("GGG", "GGG", "GGG"),
        "ZZZ" := Node("ZZZ", "ZZZ", "ZZZ")]
  }

  /** The first example of part 1: with RL the walk goes AAA, CCC, ZZZ and arrives on
      step 2. */
  lemma FirstExampleWalk()
    ensures FirstArrival(FirstExampleNetwork(), [Right, Left], FirstExampleNetwork()["AAA"], IsGoalOne, 2)
  {
    var network, instructions := FirstExampleNetwork(), [Right, Left];
    var a := network["AAA"];
    assert Cursor(2, 0) == 0 && Cursor(2, 1) == 1;
    assert Walk(network, instructions, a, 1) == Ok(network["CCC"]);
    assert Walk(network, instructions, a, 2) == Ok(network["ZZZ"]);
  }

  function ExampleNetwork(): Network {
    map["AAA" := Node("AAA", "BBB", "BBB"), "BBB" := Node("BBB", "AAA", "ZZZ"), "ZZZ" := Node("ZZZ", "ZZZ", "ZZZ")]
  }

  /** The second example of part 1: with LLR the walk goes round AAA and BBB and reaches
      ZZZ first on step 6. */
  lemma ExampleWalk()
    ensures FirstArrival(ExampleNetwork(), [Left, Left, Right], ExampleNetwork()["AAA"], IsGoalOne, 6)
  {
    var network, instructions := ExampleNetwork(), [Left, Left, Right];
    var a, b := network["AAA"], network["BBB"];
    assert Cursor(3, 1) == 1 && Cursor(3, 2) == 2 && Cursor(3, 3) == 0 && Cursor(3, 4) == 1 && Cursor(3, 5) == 2;
    assert Walk(network, instructions, a, 1) == Ok(b);
    assert Walk(network, instructions, a, 2) == Ok(a);
    assert Walk(network, instructions, a, 3) == Ok(b);
    assert Walk(network, instructions, a, 4) == Ok(a);
    assert Walk(network, instructions, a, 5) == Ok(b);
    assert Walk(network, instructions, a, 6) == Ok(network["ZZZ"]);
  }

  // ---------------------------------------------------------------- gcd and lcm

  ghost predicate Divides(d: int, n: int) {
    exists q: int :: n == d * q
  }

  /** `gcd_of_two_numbers`. */
  function Gcd(a: nat, b: nat): nat
    decreases b
  {
    if b == 0 then a else Gcd(b, a % b)
  }

  /** Coefficients x, y with a * x + b * y == Gcd(a, b). */
  function Bezout(a: nat, b: nat): (r: (int, int))
    ensures a * r.0 + b * r.1 == Gcd(a, b)
    decreases b
  {
    if b == 0 then (1, 0)
    else
      var (x, y) := Bezout(b, a % b);
      BezoutStep(a, b, x, y, Gcd(a, b));
      (y, x - (a / b) * y)
  }

  lemma BezoutStep(a: nat, b: nat, x: int, y: int, g: int)
    requires b > 0 && b * x + (a % b) * y == g
    ensures a * y + b * (x - (a / b) * y) == g
  {
    var q, m := a / b, a % b;
    assert a == b * q + m;
    calc {
      a * y + b * (x - q * y);
      == (b * q + m) * y + b * x - b * (q * y);
      == { assert (b * q + m) * y == b * q * y + m * y; assert b * (q * y) == b * q * y; }
      b * x + m * y;
    }
  }

  /** The gcd divides both numbers. */
  lemma {:induction false} GcdDivides(a: nat, b: nat)
    ensures Divides(Gcd(a, b), a) && Divides(Gcd(a, b), b)
    decreases b
  {
    if b == 0 {
      assert a == a * 1 && b == a * 0;
    } else {
      GcdDivides(b, a % b);
      var g := Gcd(a, b);
      var p :| b == g * p;
      var r :| a % b == g * r;
      var q := a / b;
      assert a == b * q + a % b;
      assert a == g * (p * q + r) by {
        assert b * q == g * p * q;
      }
    }
  }

  lemma GcdPositive(a: nat, b: nat)
    requires a > 0 || b > 0
    ensures Gcd(a, b) > 0
  {
    GcdDivides(a, b);
  }

  /** `a * b / gcd(a, b)`, the step of `lcm`; a zero divisor is the panic. */
  function Lcm2(a: nat, b: nat): Result<nat> {
    var g := Gcd(a, b);
    if g == 0 then Err("attempt to divide by zero") else Ok(a * b / g)
  }

  /** `lcm`: one number is itself; otherwise the first with the lcm of the rest; an
      empty slice is the out-of-bounds panic of `nums[0]`. */
  function Lcm(nums: seq<nat>): Result<nat>
    decreases |nums|
  {
    if |nums| == 0 then Err("index out of bounds: the len is 0 but the index is 0")
    else if |nums| == 1 then Ok(nums[0])
    else
      match Lcm(nums[1..])
      case Err(e) => Err(e)
      case Ok(b) => Lcm2(nums[0], b)
  }

  /** For positive a and b, a * b / gcd is a positive common multiple that divides every
      common multiple. */
  lemma Lcm2Spec(a: nat, b: nat)
    requires a >= 1 && b >= 1
    ensures Lcm2(a, b).Ok? && Lcm2(a, b).value >= 1
    ensures Divides(a, Lcm2(a, b).value) && Divides(b, Lcm2(a, b).value)
    ensures forall m :: Divides(a, m) && Divides(b, m) ==> Divides(Lcm2(a, b).value, m)
  {
    var g := Gcd(a, b);
    GcdPositive(a, b);
    GcdDivides(a, b);
    var p :| a == g * p;
    var q :| b == g * q;
    LcmFactors(a, b, g, p, q);
    var l := Lcm2(a, b).value;
    assert l == a * q && l == b * p && l == p * b;
    var (x, y) := Bezout(a, b);
    forall m | Divides(a, m) && Divides(b, m)
      ensures Divides(l, m)
    {
      var s :| m == a * s;
      var t :| m == b * t;
      LcmLeast(a, b, g, p, q, x, y, m, s, t);
    }
  }

  /** With a == g * p and b == g * q, a * b / g is both a * q and b * p. */
  lemma LcmFactors(a: int, b: int, g: int, p: int, q: int)
    requires a >= 1 && b >= 1 && g >= 1 && a == g * p && b == g * q
    ensures a * b / g == a * q && a * b / g == b * p && a * b / g >= 1
  {
    PositiveFactor(a, g, p);
    assert a * b == g * (a * q) by {
      assert a * b == a * (g * q);
    }
    DivideExact(a * b, g, a * q);
    assert a * q == b * p by {
      assert a * q == (g * p) * q && b * p == (g * q) * p;
    }
    MulAtLeast(b, p);
  }

  lemma PositiveFactor(n: int, g: int, p: int)
    requires n >= 1 && g >= 1 && n == g * p
    ensures p >= 1
  {
  }

  lemma DivideExact(n: int, g: int, k: int)
    requires g > 0 && n == g * k
    ensures n / g == k
  {
    ModUnique(g, k, 0, n);
    var q := n / g;
    assert n == g * q + n % g;
    assert g * (k - q) == 0 by {
      assert g * (k - q) == g * k - g * q;
    }
  }

  /** The core of Lcm2Spec: m * g == a * b * (t * x + s * y) by Bezout, so m is
      (a * b / g) times t * x + s * y. */
  lemma LcmLeast(a: int, b: int, g: int, p: int, q: int, x: int, y: int, m: int, s: int, t: int)
    requires g >= 1 && a == g * p && b == g * q
    requires a * x + b * y == g && m == a * s && m == b * t
    ensures Divides(p * b, m)
  {
    var k := t * x + s * y;
    assert m * g == m * (a * x + b * y);
    assert m * (a * x + b * y) == (b * t) * (a * x) + (a * s) * (b * y) by {
      assert m * (a * x) == (b * t) * (a * x);
      assert m * (b * y) == (a * s) * (b * y);
    }
    assert (b * t) * (a * x) + (a * s) * (b * y) == (a * b) * k;
    assert (a * b) * k == g * ((p * b) * k) by {
      assert a * b == g * (p * b);
    }
    assert m == (p * b) * k by {
      CancelFactor(g, m, (p * b) * k);
    }
  }

  lemma CancelFactor(g: int, u: int, v: int)
    requires g >= 1 && u * g == g * v
    ensures u == v
  {
    assert g * (u - v) == 0;
  }

  lemma DividesTransitive(a: int, b: int, c: int)
    requires Divides(a, b) && Divides(b, c)
    ensures Divides(a, c)
  {
    var p :| b == a * p;
    var q :| c == b * q;
    assert c == a * (p * q);
  }

  /** For positive numbers, `lcm` is their least common multiple: a positive multiple of
      each, dividing every common multiple. So its value does not depend on their order. */
  lemma {:induction false} LcmSpec(nums: seq<nat>)
    requires nums != [] && forall i :: 0 <= i < |nums| ==> nums[i] >= 1
    ensures Lcm(nums).Ok? && Lcm(nums).value >= 1
    ensures forall i :: 0 <= i < |nums| ==> Divides(nums[i], Lcm(nums).value)
    ensures forall m :: (forall i :: 0 <= i < |nums| ==> Divides(nums[i], m)) ==> Divides(Lcm(nums).value, m)
    decreases |nums|
  {
    if |nums| == 1 {
      assert nums[0] == nums[0] * 1;
    } else {
      var rest := nums[1..];
      LcmSpec(rest);
      var b := Lcm(rest).value;
      Lcm2Spec(nums[0], b);
      var l := Lcm(nums).value;
      forall i | 1 <= i < |nums|
        ensures Divides(nums[i], l)
      {
        assert Divides(rest[i - 1], b);
        DividesTransitive(nums[i], b, l);
      }
      forall m | forall i :: 0 <= i < |nums| ==> Divides(nums[i], m)
        ensures Divides(l, m)
      {
        assert forall i :: 0 <= i < |rest| ==> Divides(rest[i], m) by {
          forall i | 0 <= i < |rest|
            ensures Divides(rest[i], m)
          {
            assert rest[i] == nums[i + 1];
          }
        }
      }
    }
  }

  // ---------------------------------------------------------------- part 2

  predicate EndsWith(name: string, c: char) {
    |name| > 0 && name[|name| - 1] == c
  }

  predicate IsGoalTwo(name: string) {
    EndsWith(name, 'Z')
  }

  /** The names part 2 starts from. */
  function StartNames(network: Network): set<string> {
    set name | name in network && EndsWith(name, 'A')
  }

  /** Every walk of part 2 ends. */
  ghost predicate AllWalksStop(network: Network, instructions: seq<Instruction>)
    requires |instructions| > 0
  {
    forall name :: name in StartNames(network) ==> WalkStops(network, instructions, network[name], IsGoalTwo)
  }

  /** The loop over the starting nodes of part 2: the first step count at which each
      reaches a name ending in 'Z'. The map's order of the starts is not modelled: they
      are taken in any order, given by `starts`. */
  method ArrivalCounts(network: Network, instructions: seq<Instruction>)
    returns (counts: Result<seq<nat>>, ghost starts: seq<string>)
    requires |instructions| > 0 && AllWalksStop(network, instructions)
    ensures counts.Err? ==> counts.error == "Unknown node"
    ensures counts.Err? ==> (exists name, k :: name in StartNames(network)
                               && FirstFailure(network, instructions, network[name], IsGoalTwo, k))
    ensures counts.Ok? ==> |counts.value| == |starts|
    ensures counts.Ok? ==> forall name :: name in StartNames(network) <==> name in starts
    ensures counts.Ok? ==> forall i :: 0 <= i < |starts| ==>
              starts[i] in network && FirstArrival(network, instructions, network[starts[i]], IsGoalTwo, counts.value[i])
  {
    var remaining := StartNames(network);
    var found: seq<nat> := [];
    starts := [];
    while remaining != {}
      invariant remaining <= StartNames(network)
      invariant forall name :: name in StartNames(network) <==> name in starts || name in remaining
      invariant |found| == |starts|
      invariant forall i :: 0 <= i < |starts| ==>
                  starts[i] in network && FirstArrival(network, instructions, network[starts[i]], IsGoalTwo, found[i])
      decreases |remaining|
    {
      var name :| name in remaining;
      var steps := StepsUntil(network, instructions, network[name], IsGoalTwo);
      if steps.Err? {
        return Err(steps.error), starts;
      }
      found := found + [steps.value];
      starts := starts + [name];
      remaining := remaining - {name};
    }
    counts := Ok(found);
  }

  /** Part 2 `solve`: the least common multiple of the step counts of all starts. With no
      instructions no start records a count, and `lcm` of no counts panics. */
  method Part2(lines: seq<string>) returns (r: Result<nat>)
    requires ParseInput(lines).Ok? && |ParseInput(lines).value.0| > 0 ==>
               AllWalksStop(ParseInput(lines).value.1, ParseInput(lines).value.0)
    ensures ParseInput(lines).Err? ==> r == Err(ParseInput(lines).error)
    ensures ParseInput(lines).Ok? && (ParseInput(lines).value.0 == [] || StartNames(ParseInput(lines).value.1) == {}) ==>
              r.Err?
    ensures ParseInput(lines).Ok? && |ParseInput(lines).value.0| > 0 && StartNames(ParseInput(lines).value.1) != {}
            && r.Err? ==>
              var (instructions, network) := ParseInput(lines).value;
              r.error == "Unknown node" && (exists name, k :: name in StartNames(network)
                                              && FirstFailure(network, instructions, network[name], IsGoalTwo, k))
    ensures r.Ok? ==> (ParseInput(lines).Ok? &&
              var (instructions, network) := ParseInput(lines).value;
              && |instructions| > 0
              && r.value >= 1
              && CommonArrivalMultiple(network, instructions, r.value)
              && forall m :: CommonArrivalMultiple(network, instructions, m) ==> Divides(r.value, m))
  {
    var input := Load(lines);
    if input.Err? {
      return Err(input.error);
    }
    var (instructions, network) := input.value;
    if instructions == [] {
      return Lcm([]);
    }
    var counts, starts := ArrivalCounts(network, instructions);
    if counts.Err? {
      return Err(counts.error);
    }
    if counts.value != [] {
      PartTwoResult(network, instructions, counts.value, starts);
    }
    r := Lcm(counts.value);
  }

  /** m is a multiple of the first-arrival count of every start. */
  ghost predicate CommonArrivalMultiple(network: Network, instructions: seq<Instruction>, m: int)
    requires |instructions| > 0
  {
    forall name :: name in StartNames(network) ==> ArrivalDivides(network, instructions, name, m)
  }

  ghost predicate ArrivalDivides(network: Network, instructions: seq<Instruction>, name: string, m: int)
    requires |instructions| > 0 && name in network
  {
    exists k: nat :: FirstArrival(network, instructions, network[name], IsGoalTwo, k) && Divides(k, m)
  }

  /** The lcm of the first-arrival counts, one per start, is the least common multiple
      of the arrivals of all starts. */
  lemma PartTwoResult(network: Network, instructions: seq<Instruction>, counts: seq<nat>, starts: seq<string>)
    requires |instructions| > 0 && counts != [] && |counts| == |starts|
    requires forall name :: name in StartNames(network) <==> name in starts
    requires forall i :: 0 <= i < |starts| ==>
               starts[i] in network && FirstArrival(network, instructions, network[starts[i]], IsGoalTwo, counts[i])
    ensures Lcm(counts).Ok? && Lcm(counts).value >= 1
    ensures CommonArrivalMultiple(network, instructions, Lcm(counts).value)
    ensures forall m :: CommonArrivalMultiple(network, instructions, m) ==> Divides(Lcm(counts).value, m)
  {
    LcmSpec(counts);
    var l := Lcm(counts).value;
    forall name | name in StartNames(network)
      ensures ArrivalDivides(network, instructions, name, l)
    {
      var i :| 0 <= i < |starts| && starts[i] == name;
      assert Divides(counts[i], l);
    }
    forall m | CommonArrivalMultiple(network, instructions, m)
      ensures Divides(l, m)
    {
      forall i | 0 <= i < |counts|
        ensures Divides(counts[i], m)
      {
        CountDivides(network, instructions, counts[i], starts[i], m);
      }
    }
  }

  lemma CountDivides(network: Network, instructions: seq<Instruction>, count: nat, name: string, m: int)
    requires |instructions| > 0 && name in StartNames(network)
    requires FirstArrival(network, instructions, network[name], IsGoalTwo, count)
    requires CommonArrivalMultiple(network, instructions, m)
    ensures Divides(count, m)
  {
    assert ArrivalDivides(network, instructions, name, m);
    var k: nat :| FirstArrival(network, instructions, network[name], IsGoalTwo, k) && Divides(k, m);
    FirstArrivalUnique(network, instructions, network[name], IsGoalTwo, k, count);
  }
}
