/**
 * The browser-side store (IndexedDB, lib/chat-store/persist, which is not part
 * of this model) as two maps: the `"chats"` collection keyed by chat id and
 * the `"messages"` collection keyed by chat id. Writing an array to a
 * collection replaces it; writing one record upserts it by id. A listing of
 * a collection is a sequence holding each stored record once.
 */
module ChatStore {
  import opened Wrappers
  import Seqs

  /** A chat record as cached; `createdAt` is the sort key the comparators derive from `created_at`. */
  datatype Chat = Chat(
    id: string,
    title: string,
    createdAt: int,
    updatedAt: Option<int>,
    model: string,
    userId: string,
    isPublic: bool,
    pinned: bool,
    pinnedAt: Option<string>,
    projectId: Option<string>,
    systemPrompt: Option<string>)

  /** A message of the AI SDK; `createdAt` is absent on some messages. */
  datatype Message = Message(id: string, role: string, content: string, createdAt: Option<int>)

  /**
   * What reading one key of `"messages"` gives: an entry (whose `messages`
   * may be missing), or an array.
   */
  datatype MessageEntry = Entry(messages: Option<seq<Message>>) | ArrayValued

  /**
   * What a backend call produced: a response with its status and the result
   * of reading its JSON body (the error message when that threw), or the
   * message of the error the call itself threw.
   */
  datatype Fetched<T> =
    | Answered(status: int, statusText: string, payload: Result<T>)
    | Unreachable(message: string)
  {
    /** `response.ok`. */
    predicate Ok() {
      Answered? && 200 <= status <= 299
    }
  }

  /** Every chat is stored under its own id. */
  ghost predicate WellKeyed(m: map<string, Chat>) {
    forall k :: k in m ==> m[k].id == k
  }

  ghost function Ids(s: seq<Chat>): set<string> {
    set i | 0 <= i < |s| :: s[i].id
  }

  ghost predicate DistinctIds(s: seq<Chat>) {
    forall i, j :: 0 <= i < j < |s| ==> s[i].id != s[j].id
  }

  /**
   * The collection an array of chats becomes when written (or put into a
   * `Map` by successive `set`s): keyed by id, a later record replacing an
   * earlier one with the same id.
   */
  function KeyById(s: seq<Chat>): (m: map<string, Chat>)
    ensures WellKeyed(m)
    ensures m.Keys == Ids(s)
  {
    if s == [] then map[]
    else
      var init := s[..|s| - 1];
      assert Ids(s) == Ids(init) + {s[|s| - 1].id} by {
        forall k | k in Ids(s) ensures k in Ids(init) + {s[|s| - 1].id} {
          var i :| 0 <= i < |s| && s[i].id == k;
          if i < |s| - 1 { assert init[i] == s[i]; }
        }
        forall k | k in Ids(init) ensures k in Ids(s) {
          var i :| 0 <= i < |init| && init[i].id == k;
          assert s[i] == init[i];
        }
      }
      KeyById(init)[s[|s| - 1].id := s[|s| - 1]]
  }

  /** `s` lists the collection `m`: every stored chat exactly once, and nothing else. */
  ghost predicate Lists(s: seq<Chat>, m: map<string, Chat>) {
    DistinctIds(s) && KeyById(s) == m
  }

  lemma {:induction false} KeyByIdOfDistinct(s: seq<Chat>)
    requires DistinctIds(s)
    ensures forall i :: 0 <= i < |s| ==> s[i].id in KeyById(s) && KeyById(s)[s[i].id] == s[i]
  {
    if s != [] {
      var init := s[..|s| - 1];
      KeyByIdOfDistinct(init);
      forall i | 0 <= i < |s|
        ensures s[i].id in KeyById(s) && KeyById(s)[s[i].id] == s[i]
      {
        if i < |s| - 1 {
          assert init[i] == s[i];
        }
      }
    }
  }

  /** What a listing means element by element. */
  lemma ListsEachOnce(s: seq<Chat>, m: map<string, Chat>)
    requires Lists(s, m)
    ensures forall i :: 0 <= i < |s| ==> s[i].id in m && m[s[i].id] == s[i]
    ensures forall k :: k in m ==> exists i :: 0 <= i < |s| && s[i] == m[k]
    ensures |s| == |m|
  {
    KeyByIdOfDistinct(s);
    forall k | k in m
      ensures exists i :: 0 <= i < |s| && s[i] == m[k]
    {
      assert k in Ids(s);
      var i :| 0 <= i < |s| && s[i].id == k;
      assert s[i] == m[k];
    }
    ListedSize(s);
  }

  lemma {:induction false} ListedSize(s: seq<Chat>)
    requires DistinctIds(s)
    ensures |KeyById(s)| == |s|
  {
    if s != [] {
      var init := s[..|s| - 1];
      ListedSize(init);
      assert s[|s| - 1].id !in Ids(init) by {
        forall i | 0 <= i < |init| ensures init[i].id != s[|s| - 1].id {
          assert init[i] == s[i];
        }
      }
    }
  }

  lemma {:induction false} DistinctCount(s: seq<Chat>)
    requires DistinctIds(s)
    ensures forall x :: multiset(s)[x] <= 1
  {
    if s != [] {
      var init := s[..|s| - 1];
      var last := s[|s| - 1];
      DistinctCount(init);
      assert s == init + [last];
      assert last !in init by {
        forall i | 0 <= i < |init| ensures init[i] != last {
          assert init[i] == s[i];
        }
      }
    }
  }

  lemma KeyByIdSnoc(s: seq<Chat>, c: Chat)
    ensures KeyById(s + [c]) == KeyById(s)[c.id := c]
  {
    assert (s + [c])[..|s + [c]| - 1] == s;
  }

  lemma KeyByIdLast(s: seq<Chat>)
    requires s != []
    ensures KeyById(s) == KeyById(s[..|s| - 1])[s[|s| - 1].id := s[|s| - 1]]
  {
  }

  lemma DistinctSnoc(s: seq<Chat>, c: Chat)
    requires DistinctIds(s) && c.id !in Ids(s)
    ensures DistinctIds(s + [c])
  {
    forall i | 0 <= i < |s| ensures (s + [c])[i].id != c.id {
      assert s[i].id in Ids(s);
    }
  }

  lemma DistinctPermutation(s: seq<Chat>, t: seq<Chat>)
    requires DistinctIds(s) && multiset(t) == multiset(s)
    ensures DistinctIds(t)
  {
    DistinctCount(s);
    forall a, b | 0 <= a < b < |t|
      ensures t[a].id != t[b].id
    {
      if t[a] == t[b] {
        SameTwice(t, a, b);
        assert false;
      } else {
        assert t[a] in multiset(s) && t[b] in multiset(s);
        var i :| 0 <= i < |s| && s[i] == t[a];
        var j :| 0 <= j < |s| && s[j] == t[b];
        if i < j { assert s[i].id != s[j].id; } else { assert s[j].id != s[i].id; }
      }
    }
  }

  lemma SameTwice<T>(t: seq<T>, a: int, b: int)
    requires 0 <= a < b < |t| && t[a] == t[b]
    ensures multiset(t)[t[b]] >= 2
  {
    assert t == t[..b] + [t[b]] + t[b + 1..];
    assert t[..b] == t[..a] + [t[a]] + t[a + 1..b];
    assert multiset(t[..b])[t[b]] >= 1;
  }

  lemma IdsPermutation(s: seq<Chat>, t: seq<Chat>)
    requires multiset(t) == multiset(s)
    ensures Ids(t) == Ids(s)
  {
    forall k | k in Ids(t) ensures k in Ids(s) {
      var j :| 0 <= j < |t| && t[j].id == k;
      assert t[j] in multiset(s);
      var i :| 0 <= i < |s| && s[i] == t[j];
    }
    forall k | k in Ids(s) ensures k in Ids(t) {
      var i :| 0 <= i < |s| && s[i].id == k;
      assert s[i] in multiset(t);
      var j :| 0 <= j < |t| && t[j] == s[i];
    }
  }

  /** Reordering a listing (sorting it) keeps it a listing of the same collection. */
  lemma PermutationKeepsListing(s: seq<Chat>, t: seq<Chat>, m: map<string, Chat>)
    requires Lists(s, m) && multiset(t) == multiset(s)
    ensures Lists(t, m)
  {
    DistinctPermutation(s, t);
    KeyByIdOfDistinct(s);
    KeyByIdOfDistinct(t);
    IdsPermutation(s, t);
    SameRecords(s, t, KeyById(s), KeyById(t));
  }

  /** Two listings with the same records, each keyed without collisions, key the same collection. */
  lemma SameRecords(s: seq<Chat>, t: seq<Chat>, ks: map<string, Chat>, kt: map<string, Chat>)
    requires multiset(t) == multiset(s)
    requires kt.Keys == ks.Keys
    requires forall i :: 0 <= i < |s| ==> s[i].id in ks && ks[s[i].id] == s[i]
    requires forall i :: 0 <= i < |t| ==> t[i].id in kt && kt[t[i].id] == t[i]
    requires forall k :: k in kt ==> exists j :: 0 <= j < |t| && t[j].id == k
    ensures kt == ks
  {
    forall k | k in kt
      ensures kt[k] == ks[k]
    {
      var j :| 0 <= j < |t| && t[j].id == k;
      assert t[j] in multiset(s);
      var i :| 0 <= i < |s| && s[i] == t[j];
    }
  }

  /**
   * A `filter` of a listing writes back the collection restricted to the
   * chats it keeps.
   */
  lemma {:induction false} KeyByIdFilter(s: seq<Chat>, keep: Chat -> bool)
    requires DistinctIds(s)
    ensures DistinctIds(Seqs.Filter(s, keep))
    ensures KeyById(Seqs.Filter(s, keep)) == Restrict(KeyById(s), keep)
  {
    if s != [] {
      var init := s[..|s| - 1];
      var x := s[|s| - 1];
      assert s == init + [x];
      assert DistinctIds(init);
      KeyByIdFilter(init, keep);
      var f := Seqs.Filter(init, keep);
      assert x.id !in Ids(init) by {
        forall i | 0 <= i < |init| ensures init[i].id != x.id {
          assert init[i] == s[i];
        }
      }
      var m := KeyById(init);
      KeyByIdSnoc(init, x);
      if keep(x) {
        assert Seqs.Filter(s, keep) == f + [x];
        assert x.id !in Ids(f) by {
          forall i | 0 <= i < |f| ensures f[i].id != x.id {
            var j :| 0 <= j < |init| && init[j] == f[i];
            assert init[j].id in Ids(init);
          }
        }
        DistinctSnoc(f, x);
        KeyByIdSnoc(f, x);
        RestrictUpdate(m, x, keep);
      } else {
        assert Seqs.Filter(s, keep) == f + [];
        assert f + [] == f;
        RestrictUpdate(m, x, keep);
      }
    }
  }

  /** The chats of `m` that `keep` accepts. */
  function Restrict(m: map<string, Chat>, keep: Chat -> bool): (r: map<string, Chat>)
    ensures forall k :: k in r <==> k in m && keep(m[k])
    ensures forall k :: k in r ==> r[k] == m[k]
  {
    map k | k in m && keep(m[k]) :: m[k]
  }

  lemma RestrictUpdate(m: map<string, Chat>, x: Chat, keep: Chat -> bool)
    requires x.id !in m
    ensures Restrict(m[x.id := x], keep) == if keep(x) then Restrict(m, keep)[x.id := x] else Restrict(m, keep)
  {
  }

  /** The array `Array.from(map.values())` or a read of the whole collection gives. */
  method Entries(m: map<string, Chat>) returns (s: seq<Chat>)
    requires WellKeyed(m)
    ensures Lists(s, m)
  {
    s := [];
    var rest := m;
    while rest != map[]
      invariant Taken(s, rest, m)
      decreases |rest|
    {
      var k :| k in rest;
      TakeOne(s, rest, m, k);
      s := s + [rest[k]];
      rest := rest - {k};
    }
    TakenAll(s, m);
  }

  lemma TakenAll(s: seq<Chat>, m: map<string, Chat>)
    requires Taken(s, map[], m)
    ensures Lists(s, m)
  {
    assert KeyById(s).Keys == m.Keys;
  }

  /** `s` lists the part of `m` already read; `rest` is the part still to read. */
  ghost predicate Taken(s: seq<Chat>, rest: map<string, Chat>, m: map<string, Chat>) {
    && WellKeyed(rest)
    && DistinctIds(s)
    && Ids(s) !! rest.Keys
    && (forall k :: k in m <==> k in Ids(s) || k in rest)
    && (forall k :: k in rest ==> rest[k] == m[k])
    && (forall k :: k in Ids(s) ==> KeyById(s)[k] == m[k])
  }

  lemma TakeOne(s: seq<Chat>, rest: map<string, Chat>, m: map<string, Chat>, k: string)
    requires Taken(s, rest, m) && k in rest
    ensures Taken(s + [rest[k]], rest - {k}, m)
  {
    var c := rest[k];
    DistinctSnoc(s, c);
    KeyByIdSnoc(s, c);
    IdsSnoc(s, c);
  }

  lemma IdsSnoc(s: seq<Chat>, c: Chat)
    ensures Ids(s + [c]) == Ids(s) + {c.id}
  {
    KeyByIdSnoc(s, c);
  }

  /** The two collections of the store; both are rewritten in place by the chat and message operations. */
  class Store {
    var chats: map<string, Chat>
    var messages: map<string, MessageEntry>

    ghost predicate Valid()
      reads this
    {
      WellKeyed(chats)
    }

    constructor ()
      ensures Valid() && chats == map[] && messages == map[]
    {
      chats := map[];
      messages := map[];
    }
  }
}
