/** The hand-written parser that turns the tokens of a rule expression into
    an expression tree. Recognizers try, in a fixed order, to take a
    comparison, a boolean operator, a brace or a bare variable off the front
    of the token list; Rule.parse_one then rewires the tree around the
    current context node. Tree nodes live in an arena and refer to each
    other by index. */
module RulesSyntax {
  import opened Wrappers
  import opened Text
  import RulesLexer

  type Token = RulesLexer.Token

  const EQUAL: string := "=="
  const MATCH: string := "=~"
  const NOTEQUAL: string := "!="
  const NOTMATCH: string := "!~"
  const COMPARISONS: seq<string> := [EQUAL, MATCH, NOTMATCH, NOTEQUAL]
  const OR: string := "||"
  const AND: string := "&&"

  // ---------------------------------------------------------------------
  // Tree nodes

  /** The left or right slot of a node: empty, a token, or another node. */
  datatype Child = Empty | Leaf(tok: Token) | Node(id: nat)

  datatype TreeNode = TreeNode(parent: Option<nat>, op: Option<string>, left: Child, right: Child)

  /** Python truthiness of a slot: a token is falsy when its value is empty
      (Token defines __len__), a node is always truthy. */
  predicate Truthy(c: Child) {
    match c
    case Empty => false
    case Leaf(t) => |t.value| > 0
    case Node(_) => true
  }

  predicate ChildOK(c: Child, n: nat) {
    c.Node? ==> c.id < n
  }

  /** Every index in the arena points into it. */
  predicate Linked(nodes: seq<TreeNode>) {
    forall i :: 0 <= i < |nodes| ==>
      (nodes[i].parent.Some? ==> nodes[i].parent.value < |nodes|) &&
      ChildOK(nodes[i].left, |nodes|) && ChildOK(nodes[i].right, |nodes|)
  }

  datatype RuleError = SyntaxError(offset: int) | AssertionError | AttributeError | NoRoot

  /** TreeNode.put: a node item gets `target` as its parent; the item goes
      into the left slot if that is falsy, else into the right slot if that is
      falsy, else the put fails its assertion (after the parent was set). */
  function PutSpec(nodes: seq<TreeNode>, target: nat, item: Child): (r: Result<seq<TreeNode>, RuleError>)
    requires target < |nodes| && ChildOK(item, |nodes|)
    ensures r.Ok? <==> !Truthy(nodes[target].left) || !Truthy(nodes[target].right)
    ensures r.Err? ==> r.error == AssertionError
    ensures r.Ok? ==> |r.value| == |nodes| && r.value[target].op == nodes[target].op
    ensures r.Ok? && !Truthy(nodes[target].left) ==>
              r.value[target].left == item && r.value[target].right == nodes[target].right
    ensures r.Ok? && Truthy(nodes[target].left) ==>
              r.value[target].left == nodes[target].left && r.value[target].right == item
    ensures r.Ok? && item.Node? ==> r.value[item.id].parent == Some(target)
    ensures r.Ok? && !(item.Node? && item.id == target) ==> r.value[target].parent == nodes[target].parent
    ensures r.Ok? ==> forall i :: 0 <= i < |nodes| && i != target && !(item.Node? && i == item.id) ==>
              r.value[i] == nodes[i]
  {
    var ns := if item.Node? then nodes[item.id := nodes[item.id].(parent := Some(target))] else nodes;
    if !Truthy(ns[target].left) then Ok(ns[target := ns[target].(left := item)])
    else if !Truthy(ns[target].right) then Ok(ns[target := ns[target].(right := item)])
    else Err(AssertionError)
  }

  /** put keeps every index inside the arena. */
  lemma PutLinked(nodes: seq<TreeNode>, target: nat, item: Child)
    requires target < |nodes| && ChildOK(item, |nodes|) && Linked(nodes)
    ensures PutSpec(nodes, target, item).Ok? ==> Linked(PutSpec(nodes, target, item).value)
  {
  }

  // ---------------------------------------------------------------------
  // Recognizers

  datatype Kind = OpenBrace | BooleanAnd | BooleanOr | Compare | CloseBrace | BareVariable

  /** The order parse_one tries the recognizers in. */
  const ORDER: seq<Kind> := [OpenBrace, BooleanAnd, BooleanOr, Compare, CloseBrace, BareVariable]

  /** `isinstance(p, BooleanAnd)`: BooleanOr is a subclass of BooleanAnd. */
  predicate IsBooleanAnd(k: Kind) {
    k == BooleanAnd || k == BooleanOr
  }

  /** A recognizer's result: the new node and how many tokens it popped. */
  datatype Recognized = Recognized(node: TreeNode, used: nat)

  function Recognize(k: Kind, tokens: seq<Token>): (r: Option<Recognized>)
    ensures r.Some? ==> 1 <= r.value.used <= |tokens| && r.value.node.parent.None?
    ensures r.Some? ==> r.value.node.right.Node? == false && r.value.node.left.Node? == false
    ensures k == Compare ==>
              (r.Some? <==> |tokens| >= 3 && tokens[1].value in COMPARISONS) &&
              (r.Some? ==> r.value == Recognized(TreeNode(None, Some(tokens[1].value),
                                                          Leaf(tokens[0]), Leaf(tokens[2])), 3))
    ensures k == BooleanAnd ==> (r.Some? <==> |tokens| > 0 && tokens[0].value == AND)
    ensures k == BooleanOr ==> (r.Some? <==> |tokens| > 0 && tokens[0].value == OR)
    ensures IsBooleanAnd(k) && r.Some? ==>
              r.value == Recognized(TreeNode(None, Some(tokens[0].value), Empty, Empty), 1)
    ensures k == OpenBrace ==> (r.Some? <==> |tokens| > 0 && tokens[0].value == "(")
    ensures k == CloseBrace ==> (r.Some? <==> |tokens| > 0 && tokens[0].value == ")")
    ensures (k == OpenBrace || k == CloseBrace) && r.Some? ==>
              r.value == Recognized(TreeNode(None, Some("expr"), Empty, Empty), 1)
    ensures k == BareVariable ==>
              (r.Some? <==> |tokens| > 0 && StartsWith(tokens[0].value, "$")) &&
              (r.Some? ==> r.value == Recognized(TreeNode(None, Some("defined"), Leaf(tokens[0]), Empty), 1))
  {
    match k
    case Compare =>
      if |tokens| >= 3 && tokens[1].value in COMPARISONS then
        Some(Recognized(TreeNode(None, Some(tokens[1].value), Leaf(tokens[0]), Leaf(tokens[2])), 3))
      else None
    case BooleanAnd =>
      if |tokens| > 0 && tokens[0].value == AND then
        Some(Recognized(TreeNode(None, Some(tokens[0].value), Empty, Empty), 1))
      else None
    case BooleanOr =>
      if |tokens| > 0 && tokens[0].value == OR then
        Some(Recognized(TreeNode(None, Some(tokens[0].value), Empty, Empty), 1))
      else None
    case OpenBrace =>
      if |tokens| > 0 && tokens[0].value == "(" then
        Some(Recognized(TreeNode(None, Some("expr"), Empty, Empty), 1))
      else None
    case CloseBrace =>
      if |tokens| > 0 && tokens[0].value == ")" then
        Some(Recognized(TreeNode(None, Some("expr"), Empty, Empty), 1))
      else None
    case BareVariable =>
      if |tokens| > 0 && StartsWith(tokens[0].value, "$") then
        Some(Recognized(TreeNode(None, Some("defined"), Leaf(tokens[0]), Empty), 1))
      else None
  }

  /** The first recognizer, from position i of ORDER on, that accepts the tokens. */
  function FirstMatch(tokens: seq<Token>, i: nat): (r: Option<(Kind, Recognized)>)
    requires i <= |ORDER|
    ensures r.Some? ==> Recognize(r.value.0, tokens) == Some(r.value.1) &&
                        exists j :: i <= j < |ORDER| && ORDER[j] == r.value.0
    ensures r.None? <==> forall j :: i <= j < |ORDER| ==> Recognize(ORDER[j], tokens).None?
    decreases |ORDER| - i
  {
    if i == |ORDER| then None
    else match Recognize(ORDER[i], tokens)
      case Some(rec) => Some((ORDER[i], rec))
      case None => FirstMatch(tokens, i + 1)
  }

  /** An opening brace is recognised before anything else. */
  lemma FirstMatchBrace(tokens: seq<Token>)
    ensures |tokens| > 0 && tokens[0].value == "(" ==>
              FirstMatch(tokens, 0).Some? && FirstMatch(tokens, 0).value.0 == OpenBrace
  {
  }

  /** A comparison operator in second place makes a comparison, unless the
      first token is a brace or a boolean operator. */
  lemma FirstMatchCompare(tokens: seq<Token>)
    ensures |tokens| >= 3 && tokens[1].value in COMPARISONS && tokens[0].value !in {"(", AND, OR} ==>
              FirstMatch(tokens, 0).Some? && FirstMatch(tokens, 0).value.0 == Compare
  {
  }

  /** A `$` token not followed by a comparison operator is a bare variable. */
  lemma FirstMatchBareVariable(tokens: seq<Token>)
    ensures |tokens| > 0 && StartsWith(tokens[0].value, "$") && !(|tokens| >= 3 && tokens[1].value in COMPARISONS) ==>
              FirstMatch(tokens, 0).Some? && FirstMatch(tokens, 0).value.0 == BareVariable
  {
    if |tokens| > 0 && StartsWith(tokens[0].value, "$") {
      assert tokens[0].value[0] == '$';
      assert tokens[0].value != "(" && tokens[0].value != ")" && tokens[0].value != AND && tokens[0].value != OR;
    }
  }

  // ---------------------------------------------------------------------
  // Rule.parse_one on a value

  datatype RuleState = RuleState(tokens: seq<Token>, nodes: seq<TreeNode>, current: nat)

  predicate Valid(s: RuleState) {
    s.current < |s.nodes| && Linked(s.nodes)
  }

  /** What parse_one does once recognizer k has produced `rec`: the node is
      added to the arena, the tokens it used are gone, and the tree is rewired
      around the current context. The second component is the node returned. */
  function Apply(s: RuleState, k: Kind, rec: Recognized): (r: Result<(RuleState, nat), RuleError>)
    requires Valid(s) && rec.used <= |s.tokens| && rec.node.parent.None?
    requires !rec.node.left.Node? && !rec.node.right.Node?
  {
    var id := |s.nodes|;
    var ns := s.nodes + [rec.node];
    var cur := s.current;
    var rest := s.tokens[rec.used..];
    if ns[cur].op == Some("expr") && !Truthy(ns[cur].left) then
      // an empty expression collapses into the result
      Ok((RuleState(rest, ns, id), id))
    else if k == CloseBrace then
      if ns[cur].op == Some("expr") then
        if Truthy(ns[cur].right) then Err(AssertionError)
        else match ns[cur].left
          case Node(l) =>
            var parent := ns[cur].parent;
            Ok((RuleState(rest, ns[l := ns[l].(parent := parent)], l), l))
          case _ => Err(AttributeError)
      else Ok((RuleState(rest, ns, cur), cur))
    else if k == OpenBrace then
      var ns1 := ns[id := ns[id].(parent := Some(cur))];
      match PutSpec(ns1, cur, Node(id))
      case Ok(ns2) => Ok((RuleState(rest, ns2, id), id))
      case Err(e) => Err(e)
    else if IsBooleanAnd(k) then
      var ns1 := ns[id := ns[id].(parent := ns[cur].parent)];
      match PutSpec(ns1, id, Node(cur))
      case Ok(ns2) => Ok((RuleState(rest, ns2, id), id))
      case Err(e) => Err(e)
    else
      match PutSpec(ns, cur, Node(id))
      case Ok(ns2) => Ok((RuleState(rest, ns2, cur), id))
      case Err(e) => Err(e)
  }

  /** One parse_one step keeps the arena linked, only ever adds the one node,
      and pops exactly the tokens the recognizer used. */
  lemma ApplyValid(s: RuleState, k: Kind, rec: Recognized)
    requires Valid(s) && 1 <= rec.used <= |s.tokens| && rec.node.parent.None?
    requires !rec.node.left.Node? && !rec.node.right.Node?
    ensures var r := Apply(s, k, rec);
      r.Ok? ==> Valid(r.value.0) && |r.value.0.nodes| == |s.nodes| + 1 &&
                r.value.0.tokens == s.tokens[rec.used..] && |r.value.0.tokens| < |s.tokens| &&
                r.value.1 < |r.value.0.nodes|
  {
    var id := |s.nodes|;
    var ns := s.nodes + [rec.node];
    assert Linked(ns) by {
      forall i | 0 <= i < |ns|
        ensures (ns[i].parent.Some? ==> ns[i].parent.value < |ns|) &&
                ChildOK(ns[i].left, |ns|) && ChildOK(ns[i].right, |ns|)
      {
        if i < id {
          assert ns[i] == s.nodes[i];
        }
      }
    }
    var cur := s.current;
    if !(ns[cur].op == Some("expr") && !Truthy(ns[cur].left)) {
      if k == OpenBrace {
        PutLinked(ns[id := ns[id].(parent := Some(cur))], cur, Node(id));
      } else if IsBooleanAnd(k) {
        PutLinked(ns[id := ns[id].(parent := ns[cur].parent)], id, Node(cur));
      } else if k != CloseBrace {
        PutLinked(ns, cur, Node(id));
      }
    }
  }

  /** An empty expression context adopts whatever is recognized next: the
      result becomes the current context and nothing else is rewired. */
  lemma ApplyCollapse(s: RuleState, k: Kind, rec: Recognized)
    requires Valid(s) && rec.used <= |s.tokens| && rec.node.parent.None?
    requires !rec.node.left.Node? && !rec.node.right.Node?
    requires s.nodes[s.current].op == Some("expr") && !Truthy(s.nodes[s.current].left)
    ensures Apply(s, k, rec) == Ok((RuleState(s.tokens[rec.used..], s.nodes + [rec.node], |s.nodes|), |s.nodes|))
  {
    assert (s.nodes + [rec.node])[s.current] == s.nodes[s.current];
  }

  /** A boolean operator becomes the parent of the current context, takes its
      place under the old parent, and becomes the new context. */
  lemma ApplyBoolean(s: RuleState, k: Kind, rec: Recognized)
    requires Valid(s) && rec.used <= |s.tokens| && rec.node.parent.None?
    requires rec.node.left == Empty && rec.node.right == Empty
    requires IsBooleanAnd(k)
    requires !(s.nodes[s.current].op == Some("expr") && !Truthy(s.nodes[s.current].left))
    ensures var r := Apply(s, k, rec);
      r.Ok? && r.value.1 == r.value.0.current == |s.nodes| &&
      r.value.0.nodes[|s.nodes|].left == Node(s.current) &&
      r.value.0.nodes[|s.nodes|].parent == s.nodes[s.current].parent &&
      r.value.0.nodes[s.current].parent == Some(|s.nodes|)
  {
    var ns := s.nodes + [rec.node];
    assert ns[s.current] == s.nodes[s.current];
  }

  /** `$COLOR == "red"`: the comparison is recognized whole and replaces the
      empty starting context. */
  lemma CompareExample(a: Token, op: Token, b: Token)
    requires a.value == "$COLOR" && op.value == "==" && b.value == "\"red\""
    ensures var s := RuleState([a, op, b], [TreeNode(None, Some("expr"), Empty, Empty)], 0);
      var node := TreeNode(None, Some("=="), Leaf(a), Leaf(b));
      FirstMatch(s.tokens, 0) == Some((Compare, Recognized(node, 3))) &&
      Apply(s, Compare, Recognized(node, 3)) == Ok((RuleState([], s.nodes + [node], 1), 1))
  {
    var s := RuleState([a, op, b], [TreeNode(None, Some("expr"), Empty, Empty)], 0);
    assert a.value[0] == '$';
    assert Recognize(OpenBrace, s.tokens).None?;
    assert Recognize(BooleanAnd, s.tokens).None?;
    assert Recognize(BooleanOr, s.tokens).None?;
    assert op.value == COMPARISONS[0];
    assert s.tokens[3..] == [];
  }

  /** A comparison operator with nothing around it is accepted by no recognizer. */
  lemma LoneOperatorRejected(op: Token)
    requires op.value == "=="
    ensures FirstMatch([op], 0).None?
  {
    assert op.value[..1] == "=";
  }

  // ---------------------------------------------------------------------
  // The Rule object

  /** Rule.root: follow parents from i. The walk is cut off after `fuel`
      steps; NoRoot then stands for the source's endless loop on a cycle. */
  function Root(nodes: seq<TreeNode>, i: nat, fuel: nat): (r: Result<nat, RuleError>)
    requires i < |nodes| && Linked(nodes)
    ensures r.Ok? ==> r.value < |nodes| && nodes[r.value].parent.None?
    ensures r.Err? ==> r.error == NoRoot
    decreases fuel
  {
    match nodes[i].parent
    case None => Ok(i)
    case Some(p) => if fuel == 0 then Err(NoRoot) else Root(nodes, p, fuel - 1)
  }

  class Rule {
    var text: string
    var tokens: seq<Token>
    var nodes: seq<TreeNode>
    var current: nat

    function State(): RuleState
      reads this
    {
      RuleState(tokens, nodes, current)
    }

    /** Rule(text, tokens): the context starts as an empty "expr" node. */
    constructor (text: string, tokens: seq<Token>)
      ensures this.text == text && this.tokens == tokens
      ensures nodes == [TreeNode(None, Some("expr"), Empty, Empty)] && current == 0
      ensures Valid(State())
    {
      this.text := text;
      this.tokens := tokens;
      nodes := [TreeNode(None, Some("expr"), Empty, Empty)];
      current := 0;
    }

    /** TreeNode.put on node `target` of the arena. */
    method Put(target: nat, item: Child) returns (r: Result<(), RuleError>)
      requires target < |nodes| && ChildOK(item, |nodes|)
      modifies this
      ensures text == old(text) && tokens == old(tokens) && current == old(current)
      ensures var spec := PutSpec(old(nodes), target, item);
        (r.Ok? <==> spec.Ok?) && (spec.Ok? ==> nodes == spec.value) && (spec.Err? ==> r == Err(spec.error))
    {
      if item.Node? {
        nodes := nodes[item.id := nodes[item.id].(parent := Some(target))];
      }
      if !Truthy(nodes[target].left) {
        nodes := nodes[target := nodes[target].(left := item)];
      } else if !Truthy(nodes[target].right) {
        nodes := nodes[target := nodes[target].(right := item)];
      } else {
        return Err(AssertionError);
      }
      r := Ok(());
    }

    /** Rule.parse_one: the first recognizer in ORDER that accepts the tokens
        is applied; None when none does, with nothing changed. */
    method ParseOne() returns (r: Result<Option<nat>, RuleError>)
      requires Valid(State())
      modifies this
      ensures text == old(text)
      ensures match FirstMatch(old(tokens), 0)
        case None => r == Ok(None) && State() == old(State())
        case Some((k, rec)) =>
          var a := Apply(old(State()), k, rec);
          (a.Ok? ==> r == Ok(Some(a.value.1)) && State() == a.value.0) &&
          (a.Err? ==> r == Err(a.error))
    {
      var i := 0;
      while i < |ORDER|
        invariant i <= |ORDER| && State() == old(State()) && text == old(text)
        invariant FirstMatch(tokens, 0) == FirstMatch(tokens, i)
      {
        var k := ORDER[i];
        var res := Recognize(k, tokens);
        if res.Some? {
          var rec := res.value;
          var id := |nodes|;
          tokens := tokens[rec.used..];
          nodes := nodes + [rec.node];
          var cur := current;
          if nodes[cur].op == Some("expr") && !Truthy(nodes[cur].left) {
            current := id;
            return Ok(Some(id));
          }
          if k == CloseBrace {
            if nodes[cur].op == Some("expr") {
              if Truthy(nodes[cur].right) {
                return Err(AssertionError);
              }
              var parent := nodes[cur].parent;
              match nodes[cur].left
              case Node(l) =>
                current := l;
                nodes := nodes[l := nodes[l].(parent := parent)];
              case _ =>
                return Err(AttributeError);
            }
            return Ok(Some(current));
          } else if k == OpenBrace {
            nodes := nodes[id := nodes[id].(parent := Some(cur))];
            var ok := Put(cur, Node(id));
            if ok.Err? {
              return Err(ok.error);
            }
            current := id;
          } else if IsBooleanAnd(k) {
            nodes := nodes[id := nodes[id].(parent := nodes[cur].parent)];
            // the fresh node's left slot is empty, so this put cannot fail
            var ok := Put(id, Node(cur));
            current := id;
          } else {
            var ok := Put(cur, Node(id));
            if ok.Err? {
              return Err(ok.error);
            }
          }
          return Ok(Some(id));
        }
        i := i + 1;
      }
      r := Ok(None);
    }

    /** Rule.parse: parse_one until no tokens are left. SyntaxError carries the
        offset of the first token no recognizer accepts. Afterwards the root is
        looked up by walking parents from the current context. */
    method Parse() returns (r: Result<nat, RuleError>)
      requires Valid(State())
      modifies this
      ensures text == old(text)
      ensures r.Ok? ==> Valid(State()) && tokens == [] && r.value < |nodes| && nodes[r.value].parent.None?
      ensures r.Err? && r.error.SyntaxError? ==>
                Valid(State()) && |tokens| > 0 && r.error.offset == tokens[0].pos && FirstMatch(tokens, 0).None?
    {
      while |tokens| > 0
        invariant Valid(State()) && text == old(text)
        decreases |tokens|
      {
        ghost var s0 := State();
        var result := ParseOne();
        if result.Err? {
          return Err(result.error);
        }
        if result.value.None? {
          return Err(SyntaxError(tokens[0].pos));
        }
        var m := FirstMatch(s0.tokens, 0);
        ApplyValid(s0, m.value.0, m.value.1);
      }
      r := Root(nodes, current, |nodes|);
    }
  }

  /** RuleParser.parse: tokenize, then build the tree; a lexer failure is
      reported as a SyntaxError at offset 0. */
  method ParseRule(text: string) returns (rule: Rule, r: Result<nat, RuleError>)
    ensures rule.text == text
    ensures r.Ok? ==> RulesLexer.Tokenize(text).ok && rule.tokens == []
  {
    var lexer := new RulesLexer.Parser();
    var lexed := lexer.Parse(text);
    rule := new Rule(text, if lexed.Ok? then lexed.value else []);
    if lexed.Err? {
      return rule, Err(SyntaxError(0));
    }
    r := rule.Parse();
  }
}
