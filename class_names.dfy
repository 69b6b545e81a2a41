/** aFrame's class-name helpers (`AF.hasClass`, `AF.addClass`,
    `AF.removeClass`).  A node's `className` is modelled as its sequence of
    whitespace-separated class tokens, and a class name as one such token. */
module ClassNames {

  /** A DOM node, as far as its class attribute goes. */
  class Node {
    var className: seq<string>

    constructor (className: seq<string>)
      ensures this.className == className
    {
      this.className := className;
    }
  }

  /** `hasClass`: the pattern `(^|\s+)name(\s+|$)` matches exactly when the
      name is one of the tokens, that is, when it occurs at least once in the
      class list. */
  predicate HasClass(tokens: seq<string>, name: string): (b: bool)
    ensures b <==> multiset(tokens)[name] > 0
  {
    name in tokens
  }

  /** The position of the first token equal to `name`. */
  function FirstIndex(tokens: seq<string>, name: string): (i: nat)
    requires HasClass(tokens, name)
    ensures i < |tokens| && tokens[i] == name
    ensures forall k :: 0 <= k < i ==> tokens[k] != name
  {
    if tokens[0] == name then 0 else 1 + FirstIndex(tokens[1..], name)
  }

  /** `className.replace(pattern, ' ')`: the pattern has no global flag, so
      only the first occurrence of the token is taken out. */
  function RemoveFirst(tokens: seq<string>, name: string): (r: seq<string>)
  {
    if tokens == [] then []
    else if tokens[0] == name then tokens[1..]
    else [tokens[0]] + RemoveFirst(tokens[1..], name)
  }

  /** Removing an absent token changes nothing; removing a present one drops
      exactly its first occurrence and keeps every other token in order. */
  lemma {:induction false} RemoveFirstSpec(tokens: seq<string>, name: string)
    ensures !HasClass(tokens, name) ==> RemoveFirst(tokens, name) == tokens
    ensures HasClass(tokens, name) ==>
              var i := FirstIndex(tokens, name);
              RemoveFirst(tokens, name) == tokens[..i] + tokens[i + 1..]
  {
    if tokens != [] && tokens[0] != name {
      assert tokens == [tokens[0]] + tokens[1..];
      assert HasClass(tokens, name) <==> HasClass(tokens[1..], name);
      RemoveFirstSpec(tokens[1..], name);
      if HasClass(tokens, name) {
        var i := FirstIndex(tokens[1..], name);
        assert tokens[1..][..i] + tokens[1..][i + 1..] == tokens[1..i + 1] + tokens[i + 2..];
        assert [tokens[0]] + tokens[1..i + 1] == tokens[..i + 1];
      }
    }
  }

  /** Removal takes one copy of the name out of the multiset of tokens. */
  lemma {:induction false} RemoveFirstMultiset(tokens: seq<string>, name: string)
    ensures multiset(RemoveFirst(tokens, name)) ==
            if HasClass(tokens, name) then multiset(tokens) - multiset{name} else multiset(tokens)
  {
    if tokens != [] {
      RemoveFirstMultiset(tokens[1..], name);
      assert tokens == [tokens[0]] + tokens[1..];
    }
  }

  /** The class list after `addClass`: the name is appended unless present. */
  function Added(tokens: seq<string>, name: string): seq<string> {
    if HasClass(tokens, name) then tokens else tokens + [name]
  }

  /** `addClass` then `hasClass` holds, adding twice is adding once, and a
      `removeClass` undoes an `addClass` that appended. */
  lemma AddedSpec(tokens: seq<string>, name: string)
    ensures HasClass(Added(tokens, name), name)
    ensures Added(Added(tokens, name), name) == Added(tokens, name)
    ensures !HasClass(tokens, name) ==> RemoveFirst(Added(tokens, name), name) == tokens
  {
    if !HasClass(tokens, name) {
      RemoveFirstSpec(tokens + [name], name);
      assert FirstIndex(tokens + [name], name) == |tokens|;
    }
  }

  /** `AF.addClass(node, name)`. */
  method AddClass(node: Node, name: string)
    modifies node
    ensures node.className == Added(old(node.className), name)
    ensures HasClass(node.className, name)
    ensures old(HasClass(node.className, name)) ==> node.className == old(node.className)
  {
    if !HasClass(node.className, name) {
      node.className := node.className + [name];
    }
  }

  /** `AF.removeClass(node, name)`. */
  method RemoveClass(node: Node, name: string)
    modifies node
    ensures node.className == RemoveFirst(old(node.className), name)
    ensures !old(HasClass(node.className, name)) ==> node.className == old(node.className)
  {
    if HasClass(node.className, name) {
      node.className := RemoveFirst(node.className, name);
    }
    RemoveFirstSpec(old(node.className), name);
  }
}
