/** The NHX (extended Newick) tree reader. A lexer cuts the input into
 *  tokens; five mutually recursive procedures read one node at a time and
 *  grow a tree held as three parallel vectors: the tags of each node, the
 *  parent of each node (-1 for a root) and the children of each node.
 *  Nodes are numbered in the order they are created, so node 0 is the
 *  root. A malformed input throws an NHXException.
 *
 *  The procedures are specified here by functions over the parser's state
 *  (`Run...`), and the parser class runs the same procedures as methods on
 *  its fields, each proved equal to its function. */
module NHX {
  import opened Wrappers

  /** The token classes, in the order the lexer tries them. */
  datatype Kind =
    | OpenParenthesis | CloseParenthesis | Colon | Semicolon | Comma | Equal
    | NHXOpen | CommentOpen | BracketClose | Identifier | Invalid

  /** The NHX data block opener, which is tried before a plain `[`. */
  const NHXOpenText: string := "[&&NHX:"
  /** The lexer matches each token class within this many characters. */
  const Window: nat := 64
  /** How many characters an invalid token shows. */
  const Excerpt: nat := 10

  /** std::isspace in the C locale: space, tab, newline, vertical tab,
   *  form feed and carriage return. */
  predicate IsSpace(c: char)
  {
    c == ' ' || '\t' <= c <= '\r'
  }

  /** The identifier class [a-zA-Z0-9._-]. */
  predicate IsIdentChar(c: char)
  {
    ('a' <= c <= 'z') || ('A' <= c <= 'Z') || ('0' <= c <= '9') || c == '.' || c == '_' || c == '-'
  }

  function Min(a: int, b: int): int
  {
    if a <= b then a else b
  }

  /** The position of the first non-space character at or after p. */
  function SkipSpace(input: string, p: nat): (q: nat)
    requires p <= |input|
    ensures p <= q <= |input|
    ensures q == |input| || !IsSpace(input[q])
    ensures forall k :: p <= k < q ==> IsSpace(input[k])
    decreases |input| - p
  {
    if p < |input| && IsSpace(input[p]) then SkipSpace(input, p + 1) else p
  }

  /** The end of the run of identifier characters that starts at p and is
   *  read no further than `limit`. */
  function IdentEnd(input: string, p: nat, limit: nat): (e: nat)
    requires p <= limit <= |input|
    ensures p <= e <= limit
    ensures forall k :: p <= k < e ==> IsIdentChar(input[k])
    ensures e == limit || !IsIdentChar(input[e])
    decreases limit - p
  {
    if p < limit && IsIdentChar(input[p]) then IdentEnd(input, p + 1, limit) else p
  }

  /** The first `]` at or after p, if there is one. */
  function FindClose(input: string, p: nat): (r: Option<nat>)
    requires p <= |input|
    ensures r.Some? ==> p <= r.value < |input| && input[r.value] == ']'
    ensures r.Some? ==> forall k :: p <= k < r.value ==> input[k] != ']'
    ensures r.None? ==> forall k :: p <= k < |input| ==> input[k] != ']'
    decreases |input| - p
  {
    if p == |input| then None
    else if input[p] == ']' then Some(p)
    else FindClose(input, p + 1)
  }

  /** A token, its text and the position after it. */
  datatype Lexeme = Lexeme(kind: Kind, text: string, next: nat)

  /** The one-character tokens. The lexer tries `[&&NHX:` and `[` between
   *  `=` and `]`; as these start with a different character, the order
   *  among all of them does not change which one matches. */
  function Punctuation(c: char): (r: Option<Kind>)
    ensures r.Some? ==> r.value != Invalid && r.value != Identifier
  {
    if c == '(' then Some(OpenParenthesis)
    else if c == ')' then Some(CloseParenthesis)
    else if c == ':' then Some(Colon)
    else if c == ';' then Some(Semicolon)
    else if c == ',' then Some(Comma)
    else if c == '=' then Some(Equal)
    else if c == ']' then Some(BracketClose)
    else None
  }

  /** find_token at position p: skip whitespace, then read the token
   *  there. */
  function Lex(input: string, p: nat): (l: Lexeme)
    requires p <= |input|
    ensures p <= l.next <= |input|
    ensures l.kind != Invalid ==> l.next > p
    decreases |input| - p, 1
  {
    LexAt(input, SkipSpace(input, p))
  }

  /** The token at q, which is not a space: a class that matches there; a
   *  comment skipped through its `]`, reading on after it; otherwise an
   *  invalid token, and the position stays. */
  function LexAt(input: string, q: nat): (l: Lexeme)
    requires q <= |input|
    ensures q <= l.next <= |input|
    ensures l.kind != Invalid ==> l.next > q
    decreases |input| - q, 0
  {
    if q == |input| then Lexeme(Invalid, "...", q)
    else if Punctuation(input[q]).Some? then Lexeme(Punctuation(input[q]).value, [input[q]], q + 1)
    else if NHXOpenText <= input[q..] then Lexeme(NHXOpen, NHXOpenText, q + |NHXOpenText|)
    else if input[q] == '[' then
      match FindClose(input, q)
      case None => Lexeme(Invalid, "...", |input|)
      case Some(c) => Lex(input, c + 1)
    else if IsIdentChar(input[q]) then
      var e := IdentEnd(input, q, Min(q + Window, |input|));
      Lexeme(Identifier, input[q..e], e)
    else Lexeme(Invalid, input[q..Min(q + Excerpt, |input|)] + "...", q)
  }

  /** Whitespace before a token is skipped. */
  lemma LexSkipsSpace(input: string, p: nat, q: nat)
    requires p <= q <= |input|
    requires forall k :: p <= k < q ==> IsSpace(input[k])
    ensures Lex(input, p) == Lex(input, q)
  {
    SkipSpaceFrom(input, p, q);
  }

  lemma {:induction false} SkipSpaceFrom(input: string, p: nat, q: nat)
    requires p <= q <= |input|
    requires forall k :: p <= k < q ==> IsSpace(input[k])
    ensures SkipSpace(input, p) == SkipSpace(input, q)
    decreases q - p
  {
    if p < q {
      SkipSpaceFrom(input, p + 1, q);
    }
  }

  /** A comment, a `[` that does not open an NHX block, is skipped through
   *  the first `]` after it, and the token after it is read. */
  lemma LexSkipsComment(input: string, p: nat, c: nat)
    requires p < c < |input|
    requires input[p] == '[' && !(NHXOpenText <= input[p..])
    requires input[c] == ']' && forall k :: p < k < c ==> input[k] != ']'
    ensures Lex(input, p) == Lex(input, c + 1)
  {
    assert SkipSpace(input, p) == p;
    FindCloseAt(input, p, c);
    assert Lex(input, p) == LexAt(input, p);
  }

  lemma {:induction false} FindCloseAt(input: string, p: nat, c: nat)
    requires p <= c < |input|
    requires input[c] == ']' && forall k :: p <= k < c ==> input[k] != ']'
    ensures FindClose(input, p) == Some(c)
    decreases c - p
  {
    if p < c {
      FindCloseAt(input, p + 1, c);
    }
  }

  /** The NHX opener wins over a plain `[`. */
  lemma LexNHXOpen(input: string, p: nat)
    requires p < |input| && NHXOpenText <= input[p..]
    ensures Lex(input, p) == Lexeme(NHXOpen, NHXOpenText, p + 7)
  {
    assert input[p] == NHXOpenText[0];
    assert SkipSpace(input, p) == p;
  }

  /** A token read from p is an identifier that starts at or after p: a
   *  nonempty run of identifier characters, as long as the input lets it
   *  be, but at most one search window long. */
  predicate IdentifierToken(input: string, p: nat, l: Lexeme)
  {
    var q := l.next - |l.text|;
    p <= q < l.next <= |input| && l.text == input[q..l.next]
    && (forall k :: q <= k < l.next ==> IsIdentChar(input[k]))
    && (l.next == |input| || l.next == q + Window || !IsIdentChar(input[l.next]))
  }

  lemma LexIdentifier(input: string, p: nat)
    requires p <= |input|
    ensures Lex(input, p).kind == Identifier ==> IdentifierToken(input, p, Lex(input, p))
    decreases |input| - p, 1
  {
    LexAtIdentifier(input, SkipSpace(input, p));
  }

  lemma LexAtIdentifier(input: string, q: nat)
    requires q <= |input|
    ensures LexAt(input, q).kind == Identifier ==> IdentifierToken(input, q, LexAt(input, q))
    decreases |input| - q, 0
  {
    if q < |input| && Punctuation(input[q]).None? && !(NHXOpenText <= input[q..]) {
      if input[q] == '[' {
        match FindClose(input, q)
        case None =>
        case Some(c) => LexIdentifier(input, c + 1);
      } else if IsIdentChar(input[q]) {
        var e := IdentEnd(input, q, Min(q + Window, |input|));
        assert |input[q..e]| == e - q;
      }
    }
  }

  /** DoubleListAnnotatedTree: the tags of each node, the parent of each
   *  node and the children of each node, as parallel vectors. */
  datatype Tree = Tree(nodes: seq<map<string, string>>, parents: seq<int>, children: seq<seq<int>>, root: int)

  const EmptyTree := Tree([], [], [], 0)

  /** children(node): the `at` bounds check throws for an unknown node. */
  function Children(t: Tree, node: int): (r: Option<seq<int>>)
    ensures r.Some? <==> 0 <= node < |t.children|
  {
    if 0 <= node < |t.children| then Some(t.children[node]) else None
  }

  function Parent(t: Tree, node: int): (r: Option<int>)
    ensures r.Some? <==> 0 <= node < |t.parents|
  {
    if 0 <= node < |t.parents| then Some(t.parents[node]) else None
  }

  function NbNodes(t: Tree): nat
  {
    |t.nodes|
  }

  /** tag(node, name): the value of that tag, or the empty string when the
   *  node does not carry it; unknown nodes throw. */
  function Tag(t: Tree, node: int, name: string): (r: Option<string>)
    ensures r.Some? <==> 0 <= node < |t.nodes|
  {
    if 0 <= node < |t.nodes| then Some(if name in t.nodes[node] then t.nodes[node][name] else "") else None
  }

  /** `nodes_[number][tag] = value`. The vector's operator[] is unchecked;
   *  out of range this model leaves the tree unchanged. */
  function SetTag(t: Tree, number: int, tag: string, value: string): Tree
  {
    if 0 <= number < |t.nodes| then t.(nodes := t.nodes[number := t.nodes[number][tag := value]]) else t
  }

  /** A tag just set reads back; every other tag of every node stays. */
  lemma TagSetGet(t: Tree, number: int, tag: string, value: string, node: int, name: string)
    requires 0 <= number < |t.nodes|
    ensures Tag(SetTag(t, number, tag, value), number, tag) == Some(value)
    ensures (node != number || name != tag) ==> Tag(SetTag(t, number, tag, value), node, name) == Tag(t, node, name)
  {
  }

  /** A node that was never given a tag reads back the empty string. */
  lemma TagAbsent(t: Tree, node: int, name: string)
    requires 0 <= node < |t.nodes| && name !in t.nodes[node]
    ensures Tag(t, node, name) == Some("")
  {
  }

  /** The documented invariants of DoubleListAnnotatedTree. */
  predicate Sized(t: Tree)
  {
    |t.nodes| == |t.parents| == |t.children| && t.root == 0
  }

  predicate Numbered(t: Tree)
  {
    (|t.parents| > 0 ==> t.parents[0] == -1)
    && forall i :: 0 <= i < |t.parents| ==> -1 <= t.parents[i] < i
  }

  /** Every listed child names its parent, and every node with a parent
   *  is listed among that parent's children. */
  predicate Linked(t: Tree)
    requires Sized(t) && Numbered(t)
  {
    (forall i, k :: 0 <= i < |t.children| && 0 <= k < |t.children[i]| ==>
       0 <= t.children[i][k] < |t.parents| && t.parents[t.children[i][k]] == i)
    && (forall j :: 0 <= j < |t.parents| && t.parents[j] != -1 ==> j in t.children[t.parents[j]])
  }

  predicate Ascending(t: Tree)
  {
    forall i, a, b :: 0 <= i < |t.children| && 0 <= a < b < |t.children[i]| ==> t.children[i][a] < t.children[i][b]
  }

  predicate Shaped(t: Tree)
  {
    Sized(t) && Numbered(t) && Linked(t) && Ascending(t)
  }

  /** In a shaped tree, j is a child of i exactly when i is j's parent. */
  lemma ChildIff(t: Tree, i: int, j: int)
    requires Shaped(t) && 0 <= i < |t.nodes| && 0 <= j < |t.nodes|
    ensures j in t.children[i] <==> t.parents[j] == i
  {
    if j in t.children[i] {
      var k :| 0 <= k < |t.children[i]| && t.children[i][k] == j;
    }
  }

  /** Following parents from any node reaches a root: parents always have
   *  smaller numbers. */
  function RootOf(t: Tree, node: nat): (r: int)
    requires Sized(t) && Numbered(t) && node < |t.parents|
    ensures 0 <= r <= node && t.parents[r] == -1
    decreases node
  {
    if t.parents[node] == -1 then node else RootOf(t, t.parents[node])
  }

  /** The vectors only ever grow: an existing node's parent never changes. */
  predicate Grows(t: Tree, t': Tree)
  {
    |t.parents| <= |t'.parents| && forall i :: 0 <= i < |t.parents| ==> t'.parents[i] == t.parents[i]
  }

  /** The state of a parser: the input position, the last token read, the
   *  number of the last node created, and the tree. */
  datatype State = State(it: nat, kind: Kind, text: string, nextNode: int, tree: Tree)

  /** Why a parse throws. `OutOfRange` is the bounds check of a vector's
   *  `at`; the other three are NHXExceptions (the excerpt of the input
   *  around the position is not modelled). */
  datatype NHXError =
    | Expected(want: Kind, got: Kind, text: string, at: nat)
    | UnexpectedToken(text: string, at: nat)
    | BadNHXData(text: string, at: nat)
    | OutOfRange(index: int)

  /** The state where a procedure returned or threw, and what it threw. */
  datatype Outcome = Outcome(st: State, thrown: Option<NHXError>)

  /** find_token on a parser state. */
  function RunFindToken(input: string, st: State): (s: State)
    requires st.it <= |input|
    ensures s.it <= |input| && s.tree == st.tree && s.nextNode == st.nextNode
    ensures s.kind != Invalid ==> s.it > st.it
    ensures s.it >= st.it
  {
    var l := Lex(input, st.it);
    st.(it := l.next, kind := l.kind, text := l.text)
  }

  /** expect(type): read a token and throw unless it has that class; the
   *  token's text is the returned value. */
  function RunExpect(input: string, st: State, want: Kind): (o: Outcome)
    requires st.it <= |input|
    ensures o.st == RunFindToken(input, st)
    ensures o.thrown.None? <==> o.st.kind == want
    ensures o.thrown.Some? ==> o.thrown.value == Expected(want, o.st.kind, o.st.text, o.st.it)
  {
    var s := RunFindToken(input, st);
    if s.kind != want then Outcome(s, Some(Expected(want, s.kind, s.text, s.it))) else Outcome(s, None)
  }

  /** The first half of node_nothing: a new node with an empty tag map,
   *  its parent recorded, its children list empty, and the node added to
   *  its parent's children through `at`, which throws for a bad parent. */
  function NewNode(t: Tree, number: int, parent: int): (r: Option<Tree>)
  {
    var children := t.children + [[]];
    var t' := Tree(t.nodes + [map[]], t.parents + [parent], children, t.root);
    if parent == -1 then Some(t')
    else if 0 <= parent < |children| then Some(t'.(children := children[parent := children[parent] + [number]]))
    else None
  }

  /** Adding the node the counter names, under an existing node, keeps the
   *  tree shaped and records the new node's parent. */
  lemma NewNodeShaped(t: Tree, number: int, parent: int)
    ensures Shaped(t) && number == |t.nodes| && -1 <= parent < number ==>
      NewNode(t, number, parent).Some? &&
      var t' := NewNode(t, number, parent).value;
      Shaped(t') && |t'.nodes| == number + 1 && t'.parents[number] == parent && Grows(t, t')
  {
    if Shaped(t) && number == |t.nodes| && -1 <= parent < number {
      NewNodeShapedAt(t, number, parent);
    }
  }

  lemma NewNodeShapedAt(t: Tree, number: int, parent: int)
    requires Shaped(t) && number == |t.nodes| && -1 <= parent < number
    ensures NewNode(t, number, parent).Some?
    ensures var t' := NewNode(t, number, parent).value;
      Shaped(t') && |t'.nodes| == number + 1 && t'.parents[number] == parent && Grows(t, t')
  {
    var t' := NewNode(t, number, parent).value;
    assert Sized(t') && Numbered(t');
    forall i | 0 <= i < |t'.children|
      ensures t'.children[i] == ChildrenAfter(t, number, parent, i)
    {
    }
    NewNodeLinked(t, t', number, parent);
    NewNodeAscending(t, t', number, parent);
  }

  /** The children list of node i once node `number` is added under
   *  `parent`. */
  function ChildrenAfter(t: Tree, number: int, parent: int, i: int): seq<int>
    requires 0 <= i <= |t.children|
  {
    if i == |t.children| then [] else if i == parent then t.children[i] + [number] else t.children[i]
  }

  lemma NewNodeLinked(t: Tree, t': Tree, number: int, parent: int)
    requires Shaped(t) && number == |t.nodes| && -1 <= parent < number
    requires Sized(t') && Numbered(t') && |t'.nodes| == number + 1
    requires t'.parents == t.parents + [parent]
    requires forall i :: 0 <= i < |t'.children| ==> t'.children[i] == ChildrenAfter(t, number, parent, i)
    ensures Linked(t')
  {
    forall i, k | 0 <= i < |t'.children| && 0 <= k < |t'.children[i]|
      ensures 0 <= t'.children[i][k] < |t'.parents| && t'.parents[t'.children[i][k]] == i
    {
      assert t'.children[i] == ChildrenAfter(t, number, parent, i);
      if i == parent && k == |t.children[i]| {
      } else {
        assert t'.children[i][k] == t.children[i][k];
      }
    }
    forall j | 0 <= j < |t'.parents| && t'.parents[j] != -1
      ensures j in t'.children[t'.parents[j]]
    {
      var pj := t'.parents[j];
      assert t'.children[pj] == ChildrenAfter(t, number, parent, pj);
      if j < number {
        assert j in t.children[pj];
      }
    }
  }

  lemma NewNodeAscending(t: Tree, t': Tree, number: int, parent: int)
    requires Shaped(t) && number == |t.nodes| && -1 <= parent < number
    requires |t'.children| == number + 1
    requires forall i :: 0 <= i < |t'.children| ==> t'.children[i] == ChildrenAfter(t, number, parent, i)
    ensures Ascending(t')
  {
    forall i, a, b | 0 <= i < |t'.children| && 0 <= a < b < |t'.children[i]|
      ensures t'.children[i][a] < t'.children[i][b]
    {
      assert t'.children[i] == ChildrenAfter(t, number, parent, i);
      if i == parent && b == |t.children[i]| {
        assert 0 <= t.children[i][a] < |t.parents|;
      }
    }
  }

  lemma SetTagShaped(t: Tree, number: int, tag: string, value: string)
    ensures Shaped(t) ==> Shaped(SetTag(t, number, tag, value))
    ensures Grows(t, SetTag(t, number, tag, value)) && |SetTag(t, number, tag, value).nodes| == |t.nodes|
  {
  }

  /** A procedure that reads an existing node may start from `st`. */
  predicate Ready(st: State)
  {
    Shaped(st.tree) && st.nextNode + 1 == |st.tree.nodes|
  }

  predicate AtNode(st: State, number: int, parent: int)
  {
    Ready(st) && 0 <= number < |st.tree.nodes| && -1 <= parent < |st.tree.nodes|
  }

  /** node_end may dispatch on a token read for a child of `parent`. */
  predicate AtEnd(st: State, parent: int)
  {
    Ready(st) && -1 <= parent < |st.tree.nodes|
  }

  /** node_nothing may create node `number` under `parent`. */
  predicate AtNewNode(st: State, number: int, parent: int)
  {
    Shaped(st.tree) && number == st.nextNode == |st.tree.nodes| && -1 <= parent < number
  }

  /** A parse that returns normally stops on `;` or on `)` at the top. */
  predicate Stopped(o: Outcome)
  {
    o.thrown.None? ==> o.st.kind == Semicolon || o.st.kind == CloseParenthesis
  }

  /** From a consistent state the procedures keep the tree shaped, never
   *  change a recorded parent and never fail a bounds check. */
  predicate Kept(t: Tree, o: Outcome)
  {
    Ready(o.st) && Grows(t, o.st.tree) && !(o.thrown.Some? && o.thrown.value.OutOfRange?)
  }

  /** The measure under which the procedures terminate: every procedure
   *  that reads a token first is called with less input left, and node_end
   *  is called with the token it dispatches on just consumed. */
  function Left(input: string, st: State): nat
    requires st.it <= |input|
  {
    |input| - st.it
  }

  function EndLeft(input: string, st: State): nat
    requires st.it <= |input|
  {
    Left(input, st) + (if st.kind == Invalid then 0 else 1)
  }

  /** node_nothing(number, parent): create the node, read a token and
   *  dispatch on it. */
  function RunNodeNothing(input: string, number: int, parent: int, st: State): (o: Outcome)
    requires st.it <= |input|
    ensures o.st.it <= |input| && Stopped(o)
    ensures AtNewNode(st, number, parent) ==> Kept(st.tree, o) && number < |o.st.tree.parents| && o.st.tree.parents[number] == parent
    decreases Left(input, st), 2
  {
    match NewNode(st.tree, number, parent)
    case None => Outcome(st.(tree := Tree(st.tree.nodes + [map[]], st.tree.parents + [parent], st.tree.children + [[]], st.tree.root)), Some(OutOfRange(parent)))
    case Some(t) =>
      NewNodeShaped(st.tree, number, parent);
      RunNodeStart(input, number, parent, RunFindToken(input, st.(tree := t)))
  }

  /** The switch of node_nothing on the token after a new node: a name, a
   *  length, an NHX block, a first child, or the end of the node. */
  function RunNodeStart(input: string, number: int, parent: int, s: State): (o: Outcome)
    requires s.it <= |input|
    ensures o.st.it <= |input| && Stopped(o)
    ensures AtNode(s, number, parent) ==> Kept(s.tree, o)
    decreases EndLeft(input, s), 1
  {
    if s.kind == Identifier then
      SetTagShaped(s.tree, number, "name", s.text);
      RunNodeName(input, number, parent, s.(tree := SetTag(s.tree, number, "name", s.text)))
    else if s.kind == Colon then RunNodeLength(input, number, parent, s)
    else if s.kind == NHXOpen then RunData(input, number, parent, s)
    else if s.kind == OpenParenthesis then RunNodeNothing(input, s.nextNode + 1, number, s.(nextNode := s.nextNode + 1))
    else RunNodeEnd(input, parent, s)
  }

  /** node_name(number, parent): after a name, a length, an NHX block or
   *  the end of the node. */
  function RunNodeName(input: string, number: int, parent: int, st: State): (o: Outcome)
    requires st.it <= |input|
    ensures o.st.it <= |input| && Stopped(o)
    ensures AtNode(st, number, parent) ==> Kept(st.tree, o)
    decreases Left(input, st), 1
  {
    var s := RunFindToken(input, st);
    if s.kind == Colon then RunNodeLength(input, number, parent, s)
    else if s.kind == NHXOpen then RunData(input, number, parent, s)
    else RunNodeEnd(input, parent, s)
  }

  /** node_length(number, parent): the identifier after `:` is the
   *  "length" tag; then an NHX block or the end of the node. */
  function RunNodeLength(input: string, number: int, parent: int, st: State): (o: Outcome)
    requires st.it <= |input|
    ensures o.st.it <= |input| && Stopped(o)
    ensures AtNode(st, number, parent) ==> Kept(st.tree, o)
    decreases Left(input, st), 1
  {
    var e := RunExpect(input, st, Identifier);
    if e.thrown.Some? then e
    else
      SetTagShaped(e.st.tree, number, "length", e.st.text);
      var s := RunFindToken(input, e.st.(tree := SetTag(e.st.tree, number, "length", e.st.text)));
      if s.kind == NHXOpen then RunData(input, number, parent, s) else RunNodeEnd(input, parent, s)
  }

  /** node_end(parent): a comma starts a sibling, `)` closes the parent and
   *  reads its name, `;` ends the parse; anything else throws. */
  function RunNodeEnd(input: string, parent: int, st: State): (o: Outcome)
    requires st.it <= |input|
    ensures o.st.it <= |input| && Stopped(o)
    ensures AtEnd(st, parent) ==> Kept(st.tree, o)
    decreases EndLeft(input, st), 0
  {
    if st.kind == Comma then RunNodeNothing(input, st.nextNode + 1, parent, st.(nextNode := st.nextNode + 1))
    else if st.kind == CloseParenthesis then
      if parent == -1 then Outcome(st, None)
      else if 0 <= parent < |st.tree.parents| then RunNodeName(input, parent, st.tree.parents[parent], st)
      else Outcome(st, Some(OutOfRange(parent)))
    else if st.kind == Semicolon then Outcome(st, None)
    else Outcome(st, Some(UnexpectedToken(st.text, st.it)))
  }

  /** data(number, parent): inside `[&&NHX:`, each `tag=value` sets that
   *  tag; colons are skipped; `]` ends the block and then the node. */
  function RunData(input: string, number: int, parent: int, st: State): (o: Outcome)
    requires st.it <= |input|
    ensures o.st.it <= |input| && Stopped(o)
    ensures AtNode(st, number, parent) ==> Kept(st.tree, o)
    decreases Left(input, st), 1
  {
    var s := RunFindToken(input, st);
    if s.kind == BracketClose then RunNodeEnd(input, parent, RunFindToken(input, s))
    else if s.kind == Identifier then RunTagValue(input, number, parent, s)
    else if s.kind == Colon then RunData(input, number, parent, s)
    else Outcome(s, Some(BadNHXData(s.text, s.it)))
  }

  /** The `tag=value` branch of data: the tag just read, `=` and the value
   *  are expected in turn; the value is stored under the tag and the block
   *  is read on. */
  function RunTagValue(input: string, number: int, parent: int, st: State): (o: Outcome)
    requires st.it <= |input|
    ensures o.st.it <= |input| && Stopped(o)
    ensures AtNode(st, number, parent) ==> Kept(st.tree, o)
    decreases Left(input, st), 1
  {
    var e1 := RunExpect(input, st, Equal);
    if e1.thrown.Some? then e1
    else
      var e2 := RunExpect(input, e1.st, Identifier);
      if e2.thrown.Some? then e2
      else
        SetTagShaped(e2.st.tree, number, st.text, e2.st.text);
        RunData(input, number, parent, e2.st.(tree := SetTag(e2.st.tree, number, st.text, e2.st.text)))
  }

  /** What parse returns: the tree, or what was thrown. */
  datatype ParseResult = Parsed(tree: Tree) | Failed(error: NHXError)

  /** parse: a fresh tree rooted at 0, the input read from its start, and
   *  node 0 read as a top-level node. The node counter starts at 0. */
  function Start(input: string): State
  {
    State(0, Invalid, "", 0, EmptyTree)
  }

  function RunParse(input: string): (o: Outcome)
    ensures Stopped(o) && Kept(EmptyTree, o)
    ensures |o.st.tree.nodes| >= 1 && o.st.tree.parents[0] == -1
  {
    RunNodeNothing(input, 0, -1, Start(input))
  }

  function TreeOf(input: string): ParseResult
  {
    var o := RunParse(input);
    if o.thrown.Some? then Failed(o.thrown.value) else Parsed(o.st.tree)
  }

  /** A parsed tree has at least one node; node 0 is a root; nodes are
   *  numbered after their parents; the three vectors have one entry per
   *  node; children lists are ascending and match the parent vector. A
   *  parse that fails throws an NHXException, never a bounds error. */
  lemma ParseShaped(input: string)
    ensures TreeOf(input).Parsed? ==>
      var t := TreeOf(input).tree;
      Shaped(t) && NbNodes(t) >= 1 && t.root == 0 && t.parents[0] == -1
    ensures TreeOf(input).Failed? ==> !TreeOf(input).error.OutOfRange?
  {
  }

  // ---------------------------------------------------------------------
  // One root
  // ---------------------------------------------------------------------

  /** The nesting depth of a child of `parent`: 0 at the top level, one
   *  more than its parent's otherwise. */
  function ChildDepth(t: Tree, parent: int): (d: nat)
    requires Sized(t) && Numbered(t) && -1 <= parent < |t.parents|
    ensures d == 0 <==> parent == -1
    decreases parent + 1
  {
    if parent == -1 then 0 else 1 + ChildDepth(t, t.parents[parent])
  }

  /** Depths of existing nodes do not change as the tree grows. */
  lemma {:induction false} ChildDepthGrows(t: Tree, t': Tree, parent: int)
    requires Sized(t) && Numbered(t) && Sized(t') && Numbered(t') && Grows(t, t')
    requires -1 <= parent < |t.parents|
    ensures ChildDepth(t', parent) == ChildDepth(t, parent)
    decreases parent + 1
  {
    if parent != -1 {
      ChildDepthGrows(t, t', t.parents[parent]);
    }
  }

  /** The tokens from p up to the end of the parse, read with the
   *  parentheses opened so far at `d`, hold no comma at the top level. The
   *  scan stops at `;`, at a `)` at the top level and at an invalid token,
   *  where the parse itself stops. */
  function NoTopComma(input: string, p: nat, d: nat): bool
    requires p <= |input|
    decreases |input| - p
  {
    var l := Lex(input, p);
    if l.kind == Invalid || l.kind == Semicolon then true
    else if l.kind == Comma then d != 0 && NoTopComma(input, l.next, d)
    else if l.kind == CloseParenthesis then d == 0 || NoTopComma(input, l.next, d - 1)
    else if l.kind == OpenParenthesis then NoTopComma(input, l.next, d + 1)
    else NoTopComma(input, l.next, d)
  }

  /** The same scan, with the token `kind` just read and the input
   *  continuing at q. */
  function NoTopCommaAfter(input: string, kind: Kind, q: nat, d: nat): bool
    requires q <= |input|
  {
    if kind == Invalid || kind == Semicolon then true
    else if kind == Comma then d != 0 && NoTopComma(input, q, d)
    else if kind == CloseParenthesis then d == 0 || NoTopComma(input, q, d - 1)
    else if kind == OpenParenthesis then NoTopComma(input, q, d + 1)
    else NoTopComma(input, q, d)
  }

  /** The input holds a single top-level node: no comma outside every
   *  parenthesis before the parse ends. */
  predicate SingleTop(input: string)
  {
    NoTopComma(input, 0, 0)
  }

  /** No node added between t and t', other than `except`, is a root. */
  predicate NoNewRoot(t: Tree, t': Tree, except: int)
  {
    forall i :: |t.parents| <= i < |t'.parents| && i != except ==> t'.parents[i] != -1
  }

  lemma ReadAfter(input: string, st: State, d: nat)
    requires st.it <= |input| && NoTopComma(input, st.it, d)
    ensures var s := RunFindToken(input, st); NoTopCommaAfter(input, s.kind, s.it, d)
  {
  }

  /** node_nothing at depth d without a top-level comma ahead creates no
   *  root but its own node, and that one only at the top level. */
  lemma {:induction false} NothingOneRoot(input: string, number: int, parent: int, st: State, d: nat)
    requires st.it <= |input| && AtNewNode(st, number, parent)
    requires d == ChildDepth(st.tree, parent) && NoTopComma(input, st.it, d)
    ensures NoNewRoot(st.tree, RunNodeNothing(input, number, parent, st).st.tree, if parent == -1 then number else -1)
    decreases Left(input, st), 2
  {
    NewNodeShaped(st.tree, number, parent);
    var t := NewNode(st.tree, number, parent).value;
    ChildDepthGrows(st.tree, t, parent);
    var s := RunFindToken(input, st.(tree := t));
    ReadAfter(input, st.(tree := t), d);
    StartOneRoot(input, number, parent, s, d);
  }

  lemma {:induction false} StartOneRoot(input: string, number: int, parent: int, s: State, d: nat)
    requires s.it <= |input| && AtNode(s, number, parent) && s.tree.parents[number] == parent
    requires d == ChildDepth(s.tree, parent) && NoTopCommaAfter(input, s.kind, s.it, d)
    ensures NoNewRoot(s.tree, RunNodeStart(input, number, parent, s).st.tree, -1)
    decreases EndLeft(input, s), 1
  {
    if s.kind == Identifier {
      NamedOneRoot(input, number, parent, s, d);
    } else if s.kind == Colon {
      LengthOneRoot(input, number, parent, s, d);
    } else if s.kind == NHXOpen {
      DataOneRoot(input, number, parent, s, d);
    } else if s.kind == OpenParenthesis {
      ChildOneRoot(input, number, parent, s, d);
    } else {
      EndOneRoot(input, parent, s, d);
    }
  }

  lemma {:induction false} NamedOneRoot(input: string, number: int, parent: int, s: State, d: nat)
    requires s.it <= |input| && AtNode(s, number, parent) && s.tree.parents[number] == parent
    requires d == ChildDepth(s.tree, parent) && NoTopComma(input, s.it, d) && s.kind == Identifier
    ensures NoNewRoot(s.tree, RunNodeStart(input, number, parent, s).st.tree, -1)
    decreases EndLeft(input, s), 1, 0
  {
    var s' := s.(tree := SetTag(s.tree, number, "name", s.text));
    SetTagShaped(s.tree, number, "name", s.text);
    ChildDepthGrows(s.tree, s'.tree, parent);
    NameOneRoot(input, number, parent, s', d);
  }

  lemma {:induction false} ChildOneRoot(input: string, number: int, parent: int, s: State, d: nat)
    requires s.it <= |input| && AtNode(s, number, parent) && s.tree.parents[number] == parent
    requires d == ChildDepth(s.tree, parent) && NoTopComma(input, s.it, d + 1) && s.kind == OpenParenthesis
    ensures NoNewRoot(s.tree, RunNodeStart(input, number, parent, s).st.tree, -1)
    decreases EndLeft(input, s), 1, 0
  {
    NothingOneRoot(input, s.nextNode + 1, number, s.(nextNode := s.nextNode + 1), d + 1);
  }

  lemma {:induction false} NameOneRoot(input: string, number: int, parent: int, st: State, d: nat)
    requires st.it <= |input| && AtNode(st, number, parent) && st.tree.parents[number] == parent
    requires d == ChildDepth(st.tree, parent) && NoTopComma(input, st.it, d)
    ensures NoNewRoot(st.tree, RunNodeName(input, number, parent, st).st.tree, -1)
    decreases Left(input, st), 1
  {
    var s := RunFindToken(input, st);
    ReadAfter(input, st, d);
    if s.kind == Colon {
      LengthOneRoot(input, number, parent, s, d);
    } else if s.kind == NHXOpen {
      DataOneRoot(input, number, parent, s, d);
    } else {
      EndOneRoot(input, parent, s, d);
    }
  }

  lemma {:induction false} LengthOneRoot(input: string, number: int, parent: int, st: State, d: nat)
    requires st.it <= |input| && AtNode(st, number, parent) && st.tree.parents[number] == parent
    requires d == ChildDepth(st.tree, parent) && NoTopComma(input, st.it, d)
    ensures NoNewRoot(st.tree, RunNodeLength(input, number, parent, st).st.tree, -1)
    decreases Left(input, st), 1
  {
    var e := RunExpect(input, st, Identifier);
    ReadAfter(input, st, d);
    if e.thrown.None? {
      var t := SetTag(e.st.tree, number, "length", e.st.text);
      SetTagShaped(e.st.tree, number, "length", e.st.text);
      ChildDepthGrows(st.tree, t, parent);
      var s := RunFindToken(input, e.st.(tree := t));
      ReadAfter(input, e.st.(tree := t), d);
      if s.kind == NHXOpen {
        DataOneRoot(input, number, parent, s, d);
      } else {
        EndOneRoot(input, parent, s, d);
      }
    }
  }

  lemma {:induction false} EndOneRoot(input: string, parent: int, st: State, d: nat)
    requires st.it <= |input| && AtEnd(st, parent)
    requires d == ChildDepth(st.tree, parent) && NoTopCommaAfter(input, st.kind, st.it, d)
    ensures NoNewRoot(st.tree, RunNodeEnd(input, parent, st).st.tree, -1)
    decreases EndLeft(input, st), 0
  {
    if st.kind == Comma {
      var s' := st.(nextNode := st.nextNode + 1);
      NothingOneRoot(input, st.nextNode + 1, parent, s', d);
    } else if st.kind == CloseParenthesis && parent != -1 {
      NameOneRoot(input, parent, st.tree.parents[parent], st, d - 1);
    }
  }

  lemma {:induction false} DataOneRoot(input: string, number: int, parent: int, st: State, d: nat)
    requires st.it <= |input| && AtNode(st, number, parent) && st.tree.parents[number] == parent
    requires d == ChildDepth(st.tree, parent) && NoTopComma(input, st.it, d)
    ensures NoNewRoot(st.tree, RunData(input, number, parent, st).st.tree, -1)
    decreases Left(input, st), 1
  {
    var s := RunFindToken(input, st);
    ReadAfter(input, st, d);
    if s.kind == BracketClose {
      ReadAfter(input, s, d);
      EndOneRoot(input, parent, RunFindToken(input, s), d);
    } else if s.kind == Identifier {
      TagValueOneRoot(input, number, parent, s, d);
    } else if s.kind == Colon {
      DataOneRoot(input, number, parent, s, d);
    }
  }

  lemma {:induction false} TagValueOneRoot(input: string, number: int, parent: int, st: State, d: nat)
    requires st.it <= |input| && AtNode(st, number, parent) && st.tree.parents[number] == parent
    requires d == ChildDepth(st.tree, parent) && NoTopComma(input, st.it, d)
    ensures NoNewRoot(st.tree, RunTagValue(input, number, parent, st).st.tree, -1)
    decreases Left(input, st), 1
  {
    var e1 := RunExpect(input, st, Equal);
    ReadAfter(input, st, d);
    if e1.thrown.None? {
      var e2 := RunExpect(input, e1.st, Identifier);
      ReadAfter(input, e1.st, d);
      if e2.thrown.None? {
        var t := SetTag(e2.st.tree, number, st.text, e2.st.text);
        SetTagShaped(e2.st.tree, number, st.text, e2.st.text);
        ChildDepthGrows(st.tree, t, parent);
        DataOneRoot(input, number, parent, e2.st.(tree := t), d);
      }
    }
  }

  /** The invariant the tree's comment states, that only one node has
   *  parent -1, holds for every input with a single top-level node: node
   *  0 is the only root. */
  lemma ParseSingleRoot(input: string)
    ensures TreeOf(input).Parsed? && SingleTop(input) ==>
      var t := TreeOf(input).tree;
      t.parents[0] == -1 && forall i :: 0 < i < NbNodes(t) ==> t.parents[i] != -1
  {
    if SingleTop(input) {
      NothingOneRoot(input, 0, -1, Start(input), 0);
    }
  }

  /** A top-level comma reaches node_nothing with parent -1 and makes the
   *  next node another root: "A,B;" parses to two roots. */
  const TwoRootInput: string := "A,B;"
  const TwoRootTree := Tree([map["name" := "A"], map["name" := "B"]], [-1, -1], [[], []], 0)

  lemma TwoRootTokens()
    ensures Lex(TwoRootInput, 0) == Lexeme(Identifier, "A", 1)
    ensures Lex(TwoRootInput, 1) == Lexeme(Comma, ",", 2)
    ensures Lex(TwoRootInput, 2) == Lexeme(Identifier, "B", 3)
    ensures Lex(TwoRootInput, 3) == Lexeme(Semicolon, ";", 4)
  {
    var input := TwoRootInput;
    assert SkipSpace(input, 0) == 0 && IdentEnd(input, 0, 4) == 1;
    assert SkipSpace(input, 1) == 1;
    assert SkipSpace(input, 2) == 2 && IdentEnd(input, 2, 4) == 3;
    assert SkipSpace(input, 3) == 3;
  }

  lemma TwoRootSecond(t1: Tree)
    requires t1 == Tree([map["name" := "A"]], [-1], [[]], 0)
    ensures RunNodeNothing(TwoRootInput, 1, -1, State(2, Comma, ",", 1, t1))
      == Outcome(State(4, Semicolon, ";", 1, Tree([map["name" := "A"], map["name" := "B"]], [-1, -1], [[], []], 0)), None)
  {
    TwoRootTokens();
    var t2 := Tree([map["name" := "A"], map[]], [-1, -1], [[], []], 0);
    assert NewNode(t1, 1, -1) == Some(t2) by {
      assert t1.nodes + [map[]] == t2.nodes;
      assert t1.parents + [-1] == t2.parents;
      assert t1.children + [[]] == t2.children;
    }
    assert SetTag(t2, 1, "name", "B") == Tree([map["name" := "A"], map["name" := "B"]], [-1, -1], [[], []], 0);
  }

  lemma TwoRootComma(t1: Tree)
    requires t1 == Tree([map["name" := "A"]], [-1], [[]], 0)
    ensures RunNodeName(TwoRootInput, 0, -1, State(1, Identifier, "A", 0, t1))
      == RunNodeNothing(TwoRootInput, 1, -1, State(2, Comma, ",", 1, t1))
  {
    TwoRootTokens();
  }

  lemma TwoRoots()
    ensures RunParse(TwoRootInput) == Outcome(State(4, Semicolon, ";", 1, TwoRootTree), None)
    ensures TreeOf(TwoRootInput) == Parsed(TwoRootTree)
    ensures TwoRootTree.parents[0] == -1 && TwoRootTree.parents[1] == -1
    ensures !SingleTop(TwoRootInput)
  {
    TwoRootTokens();
    var t1 := Tree([map[]], [-1], [[]], 0);
    var t1' := Tree([map["name" := "A"]], [-1], [[]], 0);
    assert NewNode(EmptyTree, 0, -1) == Some(t1) by {
      assert EmptyTree.nodes + [map[]] == t1.nodes;
      assert EmptyTree.parents + [-1] == t1.parents;
      assert EmptyTree.children + [[]] == t1.children;
    }
    assert SetTag(t1, 0, "name", "A") == t1';
    assert RunParse(TwoRootInput) == RunNodeName(TwoRootInput, 0, -1, State(1, Identifier, "A", 0, t1'));
    TwoRootComma(t1');
    TwoRootSecond(t1');
  }

  /** The node counter and the last token are members of the parser that
   *  parse does not reset: as written, a second parse starts counting
   *  from where the first one stopped. */
  function StartAsWritten(input: string, previous: State): State
  {
    State(0, previous.kind, previous.text, previous.nextNode, EmptyTree)
  }

  function TreeOfAsWritten(input: string, previous: State): ParseResult
  {
    var o := RunNodeNothing(input, 0, -1, StartAsWritten(input, previous));
    if o.thrown.Some? then Failed(o.thrown.value) else Parsed(o.st.tree)
  }

  /** The last token does not matter: node_nothing reads a new one first. */
  lemma StartIgnoresToken(input: string, kind: Kind, text: string)
    ensures RunNodeNothing(input, 0, -1, State(0, kind, text, 0, EmptyTree)) == RunParse(input)
  {
    var t := NewNode(EmptyTree, 0, -1).value;
    assert RunFindToken(input, State(0, kind, text, 0, EmptyTree).(tree := t)) == RunFindToken(input, Start(input).(tree := t));
  }

  const ReparseInput: string := "();"

  lemma ReparseTokens()
    ensures Lex(ReparseInput, 0) == Lexeme(OpenParenthesis, "(", 1)
    ensures Lex(ReparseInput, 1) == Lexeme(CloseParenthesis, ")", 2)
    ensures Lex(ReparseInput, 2) == Lexeme(Semicolon, ";", 3)
  {
    assert SkipSpace(ReparseInput, 0) == 0;
    assert SkipSpace(ReparseInput, 1) == 1;
    assert SkipSpace(ReparseInput, 2) == 2;
  }

  /** The child of "();" read with the counter at k: created as the second
   *  node, listed among the root's children as node k + 1. */
  lemma ReparseChildNode(k: int)
    ensures NewNode(Tree([map[]], [-1], [[]], 0), k + 1, 0)
      == Some(Tree([map[], map[]], [-1, 0], [[k + 1], []], 0))
  {
    var t1 := Tree([map[]], [-1], [[]], 0);
    var t2 := Tree([map[], map[]], [-1, 0], [[k + 1], []], 0);
    assert t1.nodes + [map[]] == t2.nodes;
    assert t1.parents + [0] == t2.parents;
    assert t1.children + [[]] == [[], []];
    assert [] + [k + 1] == [k + 1];
    assert [[], []][0 := [k + 1]] == t2.children;
  }

  /** The closing parenthesis returns to the root, whose parent is -1, and
   *  the semicolon after it ends the parse. */
  lemma ReparseClose(input: string, s2: State)
    requires input == ReparseInput
    requires s2.it == 2 && s2.kind == CloseParenthesis && |s2.tree.parents| > 0 && s2.tree.parents[0] == -1
    ensures RunNodeEnd(input, 0, s2) == Outcome(s2.(it := 3, kind := Semicolon, text := ";"), None)
  {
    ReparseTokens();
    var s3 := s2.(it := 3, kind := Semicolon, text := ";");
    assert RunFindToken(input, s2) == s3;
    assert RunNodeName(input, 0, -1, s2) == RunNodeEnd(input, -1, s3);
    assert RunNodeEnd(input, 0, s2) == RunNodeName(input, 0, -1, s2);
  }

  lemma ReparseChild(input: string, k: int)
    requires input == ReparseInput
    ensures RunNodeNothing(input, k + 1, 0, State(1, OpenParenthesis, "(", k + 1, Tree([map[]], [-1], [[]], 0)))
      == Outcome(State(3, Semicolon, ";", k + 1, Tree([map[], map[]], [-1, 0], [[k + 1], []], 0)), None)
  {
    ReparseTokens();
    ReparseChildNode(k);
    var t1 := Tree([map[]], [-1], [[]], 0);
    var t2 := Tree([map[], map[]], [-1, 0], [[k + 1], []], 0);
    var s2 := State(2, CloseParenthesis, ")", k + 1, t2);
    assert RunNodeNothing(input, k + 1, 0, State(1, OpenParenthesis, "(", k + 1, t1)) == RunNodeEnd(input, 0, s2);
    ReparseClose(input, s2);
  }

  /** "();" read with the counter at k: the root, then one child that is
   *  created as the second node but listed among the root's children as
   *  node k + 1. */
  lemma ReparseFrom(input: string, k: int, kind: Kind, text: string)
    requires input == ReparseInput
    ensures RunNodeNothing(input, 0, -1, State(0, kind, text, k, EmptyTree))
      == Outcome(State(3, Semicolon, ";", k + 1, Tree([map[], map[]], [-1, 0], [[k + 1], []], 0)), None)
  {
    ReparseTokens();
    var t1 := Tree([map[]], [-1], [[]], 0);
    assert NewNode(EmptyTree, 0, -1) == Some(t1) by {
      assert EmptyTree.nodes + [map[]] == t1.nodes;
      assert EmptyTree.parents + [-1] == t1.parents;
      assert EmptyTree.children + [[]] == t1.children;
    }
    ReparseChild(input, k);
  }

  /** A child listed under a number the tree does not have. */
  lemma StaleTreeNotShaped()
    ensures !Shaped(Tree([map[], map[]], [-1, 0], [[2], []], 0))
  {
    var bad := Tree([map[], map[]], [-1, 0], [[2], []], 0);
    assert bad.children[0][0] == 2 == |bad.parents|;
  }

  /** Read after "A,B;", which leaves the counter at 1 and the last token
   *  `;`, "();" lists node 2 as a child of the root. */
  lemma StaleReparse(second: string, previous: State)
    requires second == ReparseInput && previous == State(4, Semicolon, ";", 1, TwoRootTree)
    ensures TreeOfAsWritten(second, previous) == Parsed(Tree([map[], map[]], [-1, 0], [[2], []], 0))
  {
    assert StartAsWritten(second, previous) == State(0, Semicolon, ";", 1, EmptyTree);
    ReparseFrom(second, 1, Semicolon, ";");
  }

  /** Read by a fresh parse, "();" lists node 1 as the root's child. */
  lemma FreshReparse(second: string)
    requires second == ReparseInput
    ensures TreeOf(second) == Parsed(Tree([map[], map[]], [-1, 0], [[1], []], 0))
  {
    ReparseFrom(second, 0, Invalid, "");
    assert RunParse(second) == RunNodeNothing(second, 0, -1, State(0, Invalid, "", 0, EmptyTree));
  }

  /** Read after "A,B;", "();" lists node 2 as a child of the root although
   *  the tree has two nodes, so the tree is not shaped; read by a fresh
   *  parse it lists node 1. */
  lemma StaleCounter(first: string, second: string)
    requires first == TwoRootInput && second == ReparseInput
    ensures var previous := RunParse(first).st;
      TreeOfAsWritten(second, previous) == Parsed(Tree([map[], map[]], [-1, 0], [[2], []], 0))
      && !Shaped(Tree([map[], map[]], [-1, 0], [[2], []], 0))
    ensures TreeOf(second) == Parsed(Tree([map[], map[]], [-1, 0], [[1], []], 0))
  {
    TwoRoots();
    StaleReparse(second, RunParse(first).st);
    StaleTreeNotShaped();
    FreshReparse(second);
  }
}
