/**
 The session store as objects: sessions are saved under fresh IDs, completed, and continued by
 ID. Any interleaving of these steps keeps the store and the sessions' own IDs in agreement.
 */
module SessionStore {
  import opened Values
  import IdMap

  class Session {
    const parent: Option<nat>
    var id: Option<nat>
    ghost var saves: nat
    ghost var deletes: nat
    ghost var continues: nat
    ghost var resumed: nat

    constructor (parent: Option<nat>)
      ensures this.parent == parent && id.None?
      ensures saves == deletes == continues == resumed == 0
    {
      this.parent := parent;
      id := None;
      saves, deletes, continues, resumed := 0, 0, 0, 0;
    }

    /** Saves and deletions alternate, and each deletion continues the parent once. */
    ghost predicate Balanced()
      reads this
    {
      && saves == deletes + (if id.Some? then 1 else 0)
      && continues == (if parent.Some? then deletes else 0)
    }
  }

  class Store {
    const table: IdMap.Table<Session>
    var pending: seq<nat>        // continuations on their way, by parent ID
    ghost var known: set<Session>

    ghost predicate Valid()
      reads this, table, known
    {
      && table.Valid()
      && (forall w :: w in known ==> w.Balanced())
      && (forall w :: w in known && w.id.Some? ==> w.id.value in table.entries && table.entries[w.id.value] == w)
      && (forall i :: i in table.entries ==> table.entries[i] in known && table.entries[i].id == Some(i))
    }

    constructor ()
      ensures Valid() && fresh(table) && known == {} && table.entries == map[] && pending == []
      ensures table.maxId == IdMap.MAX_ID
    {
      table := new IdMap.Table(IdMap.MAX_ID);
      pending := [];
      known := {};
    }

    method NewSession(parent: Option<nat>) returns (w: Session)
      requires Valid()
      modifies this`known
      ensures Valid() && fresh(w) && known == old(known) + {w}
      ensures w.parent == parent && w.id.None?
    {
      w := new Session(parent);
      known := known + {w};
    }

    /** Saving gives a session an ID nobody has, unless it has one. */
    method Save(w: Session)
      requires Valid() && w in known
      requires IdMap.HasFree(table.entries.Keys, table.maxId)
      modifies table, w
      ensures Valid()
      ensures w.id.Some? && table.entries[w.id.value] == w
      ensures old(w.id.Some?) ==> w.id == old(w.id) && table.entries == old(table.entries)
      ensures old(w.id.None?) ==>
                w.id.value !in old(table.entries) && table.entries == old(table.entries)[w.id.value := w]
    {
      if w.id.None? {
        var i := table.Put(w);
        w.id := Some(i);
        w.saves := w.saves + 1;
      }
    }

    /** Completing a session that is stored removes it and continues its parent; otherwise nothing happens. */
    method Complete(w: Session)
      requires Valid() && w in known
      modifies this`pending, table, w
      ensures Valid() && w.id.None?
      ensures old(w.id.Some?) ==>
                && table.entries == old(table.entries) - {old(w.id).value}
                && w.deletes == old(w.deletes) + 1
                && pending == old(pending) + (if w.parent.Some? then [w.parent.value] else [])
      ensures old(w.id.None?) ==>
                && table.entries == old(table.entries) && w.deletes == old(w.deletes) && pending == old(pending)
    {
      if w.id.Some? {
        table.Del(w.id.value);
        w.deletes := w.deletes + 1;
        if w.parent.Some? {
          pending := pending + [w.parent.value];
          w.continues := w.continues + 1;
        }
        w.id := None;
      }
    }

    /** A return reaches the session stored under its ID, and no session if there is none. */
    method ContinueSession(id: nat) returns (reached: set<Session>)
      requires Valid()
      modifies set w | w in known && w.id == Some(id)
      ensures Valid() && table.entries == old(table.entries)
      ensures reached == set w | w in known && w.id == Some(id)
      ensures |reached| == if id in table.entries then 1 else 0
      ensures forall w :: w in known && w !in reached ==> unchanged(w)
      ensures forall w :: w in reached ==> w.resumed == old(w.resumed) + 1 && w == table.entries[id]
    {
      if id in table.entries {
        var w := table.entries[id];
        w.resumed := w.resumed + 1;
        reached := {w};
      } else {
        reached := {};
      }
    }
  }
}
