/**
 Lease tokens, shared by the realtime outbox and the market plan jobs: every claim of a row
 draws a token never drawn before, and guarded updates compare it with the row's own.
 */
module Fencing {

  /** The tokens drawn so far, and the token each claimed row holds. */
  datatype Fence<K(!new)> = Fence(drawn: set<nat>, held: map<K, nat>) {

    ghost predicate Sound() {
      && (forall k :: k in held ==> held[k] in drawn)
      && (forall a, b :: a in held && b in held && held[a] == held[b] ==> a == b)
    }

    /** A token that no row holds any more. */
    ghost predicate Retired(token: nat) {
      token in drawn && forall k :: k in held ==> held[k] != token
    }
  }

  /** Rows keep their token, drop it, or take one that was not drawn before. */
  ghost predicate Advances<K(!new)>(f: Fence<K>, g: Fence<K>) {
    && f.drawn <= g.drawn
    && (forall k :: k in g.held ==>
         (k in f.held && g.held[k] == f.held[k]) || (g.held[k] !in f.drawn && g.held[k] in g.drawn))
    && (forall a, b :: a in g.held && b in g.held && g.held[a] == g.held[b] ==> a == b)
  }

  /** A retired token never comes back. */
  lemma RetiredStays<K(!new)>(f: Fence<K>, g: Fence<K>, token: nat)
    requires f.Retired(token) && Advances(f, g)
    ensures g.Retired(token)
  {
  }

  /** A row that gives up its token, or takes another, retires it: no other row can hold it. */
  lemma LostIsRetired<K(!new)>(f: Fence<K>, g: Fence<K>, k: K)
    requires f.Sound() && Advances(f, g)
    requires k in f.held && (k in g.held ==> g.held[k] != f.held[k])
    ensures g.Retired(f.held[k])
  {
  }
}
