/** The NHX parser as an object: the tree it builds, the input position,
 *  the last token read, the input and the node counter are fields that
 *  the lexer and the five parsing procedures update in place. Each method
 *  is proved to leave the fields as the function of the same name in
 *  module NHX says, so what is proved there about the functions holds of
 *  the parser. */
module NHXReader {
  import opened Wrappers
  import opened NHX

  /** The token classes in the order find_token tries their patterns: the
   *  key order of its map from token class to pattern. */
  const Order: seq<Kind> :=
    [OpenParenthesis, CloseParenthesis, Colon, Semicolon, Comma, Equal, NHXOpen, CommentOpen, BracketClose, Identifier]

  /** The text the pattern of class k matches at q, if it matches there
   *  and nothing before it is skipped. */
  function Match(input: string, q: nat, k: Kind): (m: Option<string>)
    requires q <= |input|
    ensures m.Some? ==> 0 < |m.value| && q + |m.value| <= |input| && m.value == input[q..q + |m.value|]
  {
    if q == |input| then None
    else if k == NHXOpen then
      if NHXOpenText <= input[q..] then
        assert input[q..q + |NHXOpenText|] == input[q..][..|NHXOpenText|];
        Some(NHXOpenText)
      else None
    else if k == CommentOpen then if input[q] == '[' then Some("[") else None
    else if k == Identifier then
      if IsIdentChar(input[q]) then Some(input[q..IdentEnd(input, q, Min(q + Window, |input|))]) else None
    else if Punctuation(input[q]) == Some(k) then Some([input[q]])
    else None
  }

  /** A one-character class whose pattern matches is the token LexAt
   *  reads. */
  lemma MatchPunctuation(input: string, q: nat, k: Kind)
    requires q <= |input| && k != NHXOpen && k != CommentOpen && k != Identifier
    requires Match(input, q, k).Some?
    ensures LexAt(input, q) == Lexeme(k, [input[q]], q + 1)
  {
  }

  /** When no one-character class matches at q, the character there is
   *  not punctuation. */
  lemma NoPunctuation(input: string, q: nat)
    requires q < |input|
    requires forall j :: 0 <= j < 6 ==> Match(input, q, Order[j]).None?
    requires Match(input, q, Order[8]).None?
    ensures Punctuation(input[q]).None?
  {
    assert Match(input, q, Order[0]).None? && Match(input, q, Order[1]).None?;
    assert Match(input, q, Order[2]).None? && Match(input, q, Order[3]).None?;
    assert Match(input, q, Order[4]).None? && Match(input, q, Order[5]).None?;
  }

  lemma MatchNHXOpen(input: string, q: nat)
    requires q <= |input| && Match(input, q, NHXOpen).Some?
    ensures LexAt(input, q) == Lexeme(NHXOpen, NHXOpenText, q + |NHXOpenText|)
  {
    assert input[q] == NHXOpenText[0];
    assert Punctuation(input[q]).None?;
  }

  lemma MatchIdentifier(input: string, q: nat)
    requires q < |input| && Punctuation(input[q]).None? && input[q] != '['
    requires Match(input, q, Identifier).Some?
    ensures var m := Match(input, q, Identifier).value;
      LexAt(input, q) == Lexeme(Identifier, m, q + |m|)
  {
    assert !(NHXOpenText <= input[q..]) by {
      assert input[q..][0] == input[q];
    }
  }

  /** The first class in the order that matches at q, unless it is the
   *  comment opener, is the token LexAt reads there. */
  lemma MatchFirst(input: string, q: nat, i: nat)
    requires q <= |input| && i < |Order|
    requires Match(input, q, Order[i]).Some?
    requires forall j :: 0 <= j < i ==> Match(input, q, Order[j]).None?
    ensures Order[i] != CommentOpen ==>
      var m := Match(input, q, Order[i]).value;
      LexAt(input, q) == Lexeme(Order[i], m, q + |m|)
  {
    if i == 6 {
      MatchNHXOpen(input, q);
    } else if i == 9 {
      NoPunctuation(input, q);
      assert Match(input, q, Order[7]).None?;
      MatchIdentifier(input, q);
    } else if i != 7 {
      MatchPunctuation(input, q, Order[i]);
    }
  }

  /** A `[` that does not open an NHX block opens a comment, which LexAt
   *  skips. */
  lemma MatchComment(input: string, q: nat)
    requires q <= |input|
    requires Match(input, q, CommentOpen).Some? && Match(input, q, NHXOpen).None?
    ensures q < |input| && input[q] == '[' && !(NHXOpenText <= input[q..])
  {
  }

  /** When no class matches, LexAt reads an invalid token that shows the
   *  next characters, and the position stays. */
  lemma MatchNone(input: string, q: nat)
    requires q <= |input|
    requires forall j :: 0 <= j < |Order| ==> Match(input, q, Order[j]).None?
    ensures LexAt(input, q) == Lexeme(Invalid, input[q..Min(q + Excerpt, |input|)] + "...", q)
  {
    if q < |input| {
      NoPunctuation(input, q);
      assert Match(input, q, Order[6]).None? && Match(input, q, Order[7]).None?;
      assert Match(input, q, Order[9]).None?;
    } else {
      assert input[q..q] + "..." == "...";
    }
  }

  class NHXParser {
    /** The tree being built, returned by parse. */
    var tree: Tree
    /** The input position. */
    var it: nat
    /** The last token read: its class and its text. */
    var kind: Kind
    var text: string
    var input: string
    /** The number of the last node created. */
    var nextNode: int

    /** A new parser: no input, the invalid token, the counter at 0. */
    constructor ()
      ensures tree == EmptyTree && it == 0 && kind == Invalid && text == "" && input == "" && nextNode == 0
    {
      tree, it, kind, text, input, nextNode := EmptyTree, 0, Invalid, "", "", 0;
    }

    /** The fields the procedures read and write, as one state. */
    function Current(): State
      reads this
    {
      State(it, kind, text, nextNode, tree)
    }

    /** find_token: skip whitespace, then read the token there. */
    method FindToken()
      requires it <= |input|
      modifies this`it, this`kind, this`text
      ensures Current() == RunFindToken(input, old(Current()))
      decreases |input| - it, 1
    {
      ghost var start := it;
      while it < |input| && IsSpace(input[it])
        invariant start <= it <= |input|
        invariant SkipSpace(input, it) == SkipSpace(input, start)
        decreases |input| - it
      {
        it := it + 1;
      }
      ReadToken();
    }

    /** The rest of find_token, at a character that is not a space: try
     *  each class's pattern in order; skip a comment through its `]` and
     *  read on; or read an invalid token. */
    method ReadToken()
      requires it <= |input|
      modifies this`it, this`kind, this`text
      ensures var l := LexAt(input, old(it)); it == l.next && kind == l.kind && text == l.text
      decreases |input| - it, 0
    {
      var i := FirstMatch(it);
      if i == |Order| {
        MatchNone(input, it);
        kind, text := Invalid, input[it..Min(it + Excerpt, |input|)] + "...";
        return;
      }
      var m := Match(input, it, Order[i]);
      MatchFirst(input, it, i);
      if Order[i] == CommentOpen {
        assert Match(input, it, Order[6]).None?;
        MatchComment(input, it);
        var c := SearchClose(it);
        if c.None? {
          it, kind, text := |input|, Invalid, "...";
        } else {
          it := c.value + 1;
          FindToken();
        }
      } else {
        kind, text := Order[i], m.value;
        it := it + |m.value|;
      }
    }

    /** The loop over the token patterns: the index in the order of the
     *  first class that matches at q, or the length of the order. */
    method FirstMatch(q: nat) returns (i: nat)
      requires q <= |input|
      ensures i <= |Order|
      ensures i < |Order| ==> Match(input, q, Order[i]).Some?
      ensures forall j :: 0 <= j < i ==> Match(input, q, Order[j]).None?
    {
      i := 0;
      while i < |Order|
        invariant 0 <= i <= |Order|
        invariant forall j :: 0 <= j < i ==> Match(input, q, Order[j]).None?
      {
        if Match(input, q, Order[i]).Some? {
          return;
        }
        i := i + 1;
      }
    }

    /** std::search for "]" from p. */
    method SearchClose(p: nat) returns (c: Option<nat>)
      requires p <= |input|
      ensures c == FindClose(input, p)
    {
      var k := p;
      while k < |input| && input[k] != ']'
        invariant p <= k <= |input|
        invariant FindClose(input, k) == FindClose(input, p)
        decreases |input| - k
      {
        k := k + 1;
      }
      c := if k == |input| then None else Some(k);
    }

    /** expect(type): read a token and throw unless it has that class. */
    method Expect(want: Kind) returns (thrown: Option<NHXError>)
      requires it <= |input|
      modifies this`it, this`kind, this`text
      ensures Outcome(Current(), thrown) == RunExpect(input, old(Current()), want)
    {
      FindToken();
      if kind != want {
        thrown := Some(Expected(want, kind, text, it));
      } else {
        thrown := None;
      }
    }

    /** node_nothing(number, parent): push the new node's entries, list it
     *  under its parent through the checked `at`, then switch on the next
     *  token. */
    method NodeNothing(number: int, parent: int) returns (thrown: Option<NHXError>)
      requires it <= |input|
      modifies this`it, this`kind, this`text, this`nextNode, this`tree
      ensures Outcome(Current(), thrown) == RunNodeNothing(input, number, parent, old(Current()))
      decreases |input| - it, 2
    {
      tree := tree.(nodes := tree.nodes + [map[]]);
      tree := tree.(parents := tree.parents + [parent]);
      tree := tree.(children := tree.children + [[]]);
      if parent != -1 {
        if !(0 <= parent < |tree.children|) {
          return Some(OutOfRange(parent));
        }
        tree := tree.(children := tree.children[parent := tree.children[parent] + [number]]);
      }
      assert NewNode(old(tree), number, parent) == Some(tree);
      FindToken();
      assert RunNodeNothing(input, number, parent, old(Current())) == RunNodeStart(input, number, parent, Current());
      if kind == Identifier {
        tree := SetTag(tree, number, "name", text);
        thrown := NodeName(number, parent);
      } else if kind == Colon {
        thrown := NodeLength(number, parent);
      } else if kind == NHXOpen {
        thrown := Data(number, parent);
      } else if kind == OpenParenthesis {
        nextNode := nextNode + 1;
        thrown := NodeNothing(nextNode, number);
      } else {
        thrown := NodeEnd(parent);
      }
    }

    /** node_name(number, parent). */
    method NodeName(number: int, parent: int) returns (thrown: Option<NHXError>)
      requires it <= |input|
      modifies this`it, this`kind, this`text, this`nextNode, this`tree
      ensures Outcome(Current(), thrown) == RunNodeName(input, number, parent, old(Current()))
      decreases |input| - it, 1
    {
      FindToken();
      if kind == Colon {
        thrown := NodeLength(number, parent);
      } else if kind == NHXOpen {
        thrown := Data(number, parent);
      } else {
        thrown := NodeEnd(parent);
      }
    }

    /** node_length(number, parent): the expected identifier is stored as
     *  the "length" tag. */
    method NodeLength(number: int, parent: int) returns (thrown: Option<NHXError>)
      requires it <= |input|
      modifies this`it, this`kind, this`text, this`nextNode, this`tree
      ensures Outcome(Current(), thrown) == RunNodeLength(input, number, parent, old(Current()))
      decreases |input| - it, 1
    {
      thrown := Expect(Identifier);
      if thrown.Some? {
        return;
      }
      tree := SetTag(tree, number, "length", text);
      FindToken();
      if kind == NHXOpen {
        thrown := Data(number, parent);
      } else {
        thrown := NodeEnd(parent);
      }
    }

    /** node_end(parent), dispatching on the token already read. */
    method NodeEnd(parent: int) returns (thrown: Option<NHXError>)
      requires it <= |input|
      modifies this`it, this`kind, this`text, this`nextNode, this`tree
      ensures Outcome(Current(), thrown) == RunNodeEnd(input, parent, old(Current()))
      decreases |input| - it + (if kind == Invalid then 0 else 1), 0
    {
      if kind == Comma {
        nextNode := nextNode + 1;
        thrown := NodeNothing(nextNode, parent);
      } else if kind == CloseParenthesis {
        if parent == -1 {
          thrown := None;
        } else if 0 <= parent < |tree.parents| {
          thrown := NodeName(parent, tree.parents[parent]);
        } else {
          thrown := Some(OutOfRange(parent));
        }
      } else if kind == Semicolon {
        thrown := None;
      } else {
        thrown := Some(UnexpectedToken(text, it));
      }
    }

    /** data(number, parent): the contents of an NHX block. */
    method Data(number: int, parent: int) returns (thrown: Option<NHXError>)
      requires it <= |input|
      modifies this`it, this`kind, this`text, this`nextNode, this`tree
      ensures Outcome(Current(), thrown) == RunData(input, number, parent, old(Current()))
      decreases |input| - it, 1
    {
      FindToken();
      if kind == BracketClose {
        FindToken();
        thrown := NodeEnd(parent);
      } else if kind == Identifier {
        var tag := text;
        thrown := Expect(Equal);
        if thrown.Some? {
          return;
        }
        thrown := Expect(Identifier);
        if thrown.Some? {
          return;
        }
        tree := SetTag(tree, number, tag, text);
        thrown := Data(number, parent);
      } else if kind == Colon {
        thrown := Data(number, parent);
      } else {
        thrown := Some(BadNHXData(text, it));
      }
    }

    /** parse with the node counter reset along with the tree: the result
     *  is the tree NHX.TreeOf reads from the input, whatever the parser
     *  read before. */
    method Parse(s: string) returns (r: ParseResult)
      modifies this
      ensures r == TreeOf(s) && input == s
    {
      tree := EmptyTree;
      input := s;
      it := 0;
      nextNode := 0;
      StartIgnoresToken(s, kind, text);
      var thrown := NodeNothing(0, -1);
      r := if thrown.Some? then Failed(thrown.value) else Parsed(tree);
    }

    /** parse as written: the tree is reset and the input read from its
     *  start, but the node counter keeps the value the last parse left. */
    method ParseAsWritten(s: string) returns (r: ParseResult)
      modifies this
      ensures r == TreeOfAsWritten(s, old(Current())) && input == s
    {
      tree := EmptyTree;
      input := s;
      it := 0;
      var thrown := NodeNothing(0, -1);
      r := if thrown.Some? then Failed(thrown.value) else Parsed(tree);
    }
  }
}
