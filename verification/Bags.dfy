/** Sums of heap addresses: how often each address occurs in a table of addresses. */
module Bags {
  /** Address of one heap allocation. */
  type Block = nat

  ghost function Bag(s: seq<Block>): multiset<Block> {
    if s == [] then multiset{} else Bag(s[..|s|-1]) + multiset{s[|s|-1]}
  }

  lemma Push(s: seq<Block>, p: Block)
    ensures Bag(s + [p]) == Bag(s) + multiset{p}
  {
    assert (s + [p])[..|s|] == s;
  }

  lemma {:induction false} Member(s: seq<Block>, p: Block)
    ensures p in Bag(s) <==> p in s
  {
    if s != [] { Member(s[..|s|-1], p); }
  }

  lemma Exchange(a: multiset<Block>, b: multiset<Block>, x: Block, y: Block, z: Block)
    requires a + multiset{x} == b + multiset{y}
    ensures (a + multiset{z}) + multiset{x} == (b + multiset{z}) + multiset{y}
  {
    forall k ensures ((a + multiset{z}) + multiset{x})[k] == ((b + multiset{z}) + multiset{y})[k] {
      assert (a + multiset{x})[k] == (b + multiset{y})[k];
    }
  }

  lemma {:induction false} Update(s: seq<Block>, i: nat, p: Block)
    requires i < |s|
    ensures Bag(s[i := p]) + multiset{s[i]} == Bag(s) + multiset{p}
  {
    var n := |s| - 1;
    if i < n {
      Update(s[..n], i, p);
      assert s[i := p][..n] == s[..n][i := p];
      Exchange(Bag(s[..n][i := p]), Bag(s[..n]), s[i], p, s[n]);
    } else {
      assert s[i := p][..n] == s[..n];
    }
  }

  lemma Cancel(a: multiset<Block>, b: multiset<Block>, x: Block)
    requires a + multiset{x} == b + multiset{x}
    ensures a == b
  {
    forall k ensures a[k] == b[k] { assert (a + multiset{x})[k] == (b + multiset{x})[k]; }
  }

  lemma SwapRemove(s: seq<Block>, i: nat)
    requires i < |s|
    ensures Bag(s[i := s[|s|-1]][..|s|-1]) + multiset{s[i]} == Bag(s)
  {
    var n := |s| - 1;
    var filled := s[i := s[n]];
    Update(s, i, s[n]);
    assert filled[n] == s[n];
    assert Bag(filled) == Bag(filled[..n]) + multiset{s[n]};
    forall k ensures (Bag(filled[..n]) + multiset{s[i]})[k] == Bag(s)[k] {
      assert (Bag(filled) + multiset{s[i]})[k] == (Bag(s) + multiset{s[n]})[k];
    }
  }
}
