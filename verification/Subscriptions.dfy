/** Who is told about which scripthash: two maps that must stay inverse to each other. */
module Subscriptions {
  import opened Types

  datatype Conn = Conn(id: nat)

  // ----- maps of non-empty sets, as relations

  predicate Related<K, V>(m: map<K, set<V>>, k: K, v: V) {
    k in m && v in m[k]
  }

  function PairAdded<K, V>(m: map<K, set<V>>, k: K, v: V): map<K, set<V>> {
    m[k := (if k in m then m[k] else {}) + {v}]
  }

  /** An emptied set goes with its key. */
  function PairDropped<K, V>(m: map<K, set<V>>, k: K, v: V): map<K, set<V>> {
    if k !in m then m else if m[k] - {v} == {} then m - {k} else m[k := m[k] - {v}]
  }

  ghost predicate NoneEmpty<K, V>(m: map<K, set<V>>) {
    forall k {:trigger k in m} :: k in m ==> m[k] != {}
  }

  ghost predicate Inverse(subs: map<Hash, set<Conn>>, conns: map<Conn, set<Hash>>) {
    forall sh, w {:trigger Related(subs, sh, w)} {:trigger Related(conns, w, sh)} :: Related(subs, sh, w) <==> Related(conns, w, sh)
  }

  lemma {:induction false} PairAddedRelates<K(!new), V(!new)>(m: map<K, set<V>>, k: K, v: V)
    ensures forall k', v' {:trigger Related(PairAdded(m, k, v), k', v')} ::
              Related(PairAdded(m, k, v), k', v') <==> Related(m, k', v') || (k' == k && v' == v)
    ensures NoneEmpty(m) ==> NoneEmpty(PairAdded(m, k, v))
  {
    assert v in PairAdded(m, k, v)[k];
  }

  lemma {:induction false} PairDroppedRelates<K(!new), V(!new)>(m: map<K, set<V>>, k: K, v: V)
    ensures forall k', v' {:trigger Related(PairDropped(m, k, v), k', v')} ::
              Related(PairDropped(m, k, v), k', v') <==> Related(m, k', v') && !(k' == k && v' == v)
    ensures NoneEmpty(m) ==> NoneEmpty(PairDropped(m, k, v))
  {
    if k in m {
      assert forall x :: x in m[k] - {v} <==> x in m[k] && x != v;
    }
  }

  class SubscriptionManager {
    var scripthashSubs: map<Hash, set<Conn>>
    var connScripthash: map<Conn, set<Hash>>
    var headerSubs: set<Conn>

    ghost predicate Valid()
      reads this
    {
      Inverse(scripthashSubs, connScripthash) && NoneEmpty(scripthashSubs) && NoneEmpty(connScripthash)
    }

    constructor ()
      ensures Valid() && headerSubs == {} && forall sh, w :: !Related(scripthashSubs, sh, w)
    {
      scripthashSubs, connScripthash, headerSubs := map[], map[], {};
    }

    method SubscribeScripthash(w: Conn, sh: Hash)
      requires Valid()
      modifies this
      ensures Valid() && headerSubs == old(headerSubs)
      ensures forall s, c {:trigger Related(scripthashSubs, s, c)} ::
                Related(scripthashSubs, s, c) <==> Related(old(scripthashSubs), s, c) || (s == sh && c == w)
    {
      PairAddedRelates(scripthashSubs, sh, w);
      PairAddedRelates(connScripthash, w, sh);
      if sh !in scripthashSubs {
        scripthashSubs := scripthashSubs[sh := {}];
      }
      scripthashSubs := scripthashSubs[sh := scripthashSubs[sh] + {w}];
      if w !in connScripthash {
        connScripthash := connScripthash[w := {}];
      }
      connScripthash := connScripthash[w := connScripthash[w] + {sh}];
      assert scripthashSubs == PairAdded(old(scripthashSubs), sh, w);
      assert connScripthash == PairAdded(old(connScripthash), w, sh);
    }

    method UnsubscribeScripthash(w: Conn, sh: Hash)
      requires Valid()
      modifies this
      ensures Valid() && headerSubs == old(headerSubs)
      ensures forall s, c {:trigger Related(scripthashSubs, s, c)} ::
                Related(scripthashSubs, s, c) <==> Related(old(scripthashSubs), s, c) && !(s == sh && c == w)
    {
      PairDroppedRelates(scripthashSubs, sh, w);
      PairDroppedRelates(connScripthash, w, sh);
      if sh in scripthashSubs {
        var conns := scripthashSubs[sh] - {w};
        scripthashSubs := if conns == {} then scripthashSubs - {sh} else scripthashSubs[sh := conns];
      }
      if w in connScripthash {
        var shs := connScripthash[w] - {sh};
        connScripthash := if shs == {} then connScripthash - {w} else connScripthash[w := shs];
      }
    }

    method SubscribeHeaders(w: Conn)
      requires Valid()
      modifies this
      ensures Valid() && headerSubs == old(headerSubs) + {w}
      ensures scripthashSubs == old(scripthashSubs) && connScripthash == old(connScripthash)
    {
      headerSubs := headerSubs + {w};
    }

    method UnsubscribeHeaders(w: Conn)
      requires Valid()
      modifies this
      ensures Valid() && headerSubs == old(headerSubs) - {w}
      ensures scripthashSubs == old(scripthashSubs) && connScripthash == old(connScripthash)
    {
      headerSubs := headerSubs - {w};
    }

    /** A closed connection leaves no trace, and the others keep theirs. */
    method Unsubscribe(w: Conn)
      requires Valid()
      modifies this
      ensures Valid() && headerSubs == old(headerSubs) - {w} && w !in connScripthash
      ensures forall s, c {:trigger Related(scripthashSubs, s, c)} ::
                Related(scripthashSubs, s, c) <==> Related(old(scripthashSubs), s, c) && c != w
    {
      if w in connScripthash {
        DropConnection(w);
        connScripthash := connScripthash - {w};
      }
      headerSubs := headerSubs - {w};
      assert forall s :: Related(old(scripthashSubs), s, w) ==> Related(old(connScripthash), w, s);
    }

    /** Takes the connection out of every set it is in. */
    method DropConnection(w: Conn)
      requires Valid() && w in connScripthash
      modifies this`scripthashSubs
      ensures NoneEmpty(scripthashSubs)
      ensures forall s, c {:trigger Related(scripthashSubs, s, c)} ::
                Related(scripthashSubs, s, c) <==> Related(old(scripthashSubs), s, c) && c != w
    {
      var todo := connScripthash[w];
      while todo != {}
        invariant NoneEmpty(scripthashSubs) && todo <= connScripthash[w]
        invariant forall s, c {:trigger Related(scripthashSubs, s, c)} ::
                    Related(scripthashSubs, s, c) <==>
                    Related(old(scripthashSubs), s, c) && (c != w || s in todo || s !in connScripthash[w])
        decreases todo
      {
        var sh :| sh in todo;
        PairDroppedRelates(scripthashSubs, sh, w);
        if sh in scripthashSubs {
          var conns := scripthashSubs[sh] - {w};
          scripthashSubs := if conns == {} then scripthashSubs - {sh} else scripthashSubs[sh := conns];
        }
        todo := todo - {sh};
      }
      assert forall s :: Related(old(scripthashSubs), s, w) ==> Related(connScripthash, w, s);
    }
  }
}
