/** The two rewrites the users view applies to its displayed rows: dropping the
    rows of a deleted user (`users.filter(user => user.id !== id)`) and putting a
    saved draft in place of its row (`users.map(u => u.id === user.id ? user : u)`). */
module ListOps {
  import opened UserTypes

  /** The ids of the rows, in display order. */
  function Ids(s: seq<User>): seq<int>
  {
    seq(|s|, i requires 0 <= i < |s| => s[i].id)
  }

  /** The rows whose id differs from `id`, in their original order. */
  function RemoveById(s: seq<User>, id: int): (r: seq<User>)
    ensures |r| <= |s|
    ensures forall u :: u in r <==> u in s && u.id != id
  {
    if s == [] then []
    else
      assert s == [s[0]] + s[1..];
      if s[0].id == id then RemoveById(s[1..], id)
      else [s[0]] + RemoveById(s[1..], id)
  }

  /** Each kept row keeps its number of occurrences; rows carrying `id` occur
      no more. */
  lemma {:induction false} RemoveByIdCount(s: seq<User>, id: int, u: User)
    ensures multiset(RemoveById(s, id))[u] == if u.id == id then 0 else multiset(s)[u]
  {
    if s != [] {
      assert s == [s[0]] + s[1..];
      RemoveByIdCount(s[1..], id, u);
    }
  }

  /** Filtering distributes over concatenation: together with the result on a
      single row this pins down the order of the kept rows. */
  lemma {:induction false} RemoveByIdAppend(a: seq<User>, b: seq<User>, id: int)
    ensures RemoveById(a + b, id) == RemoveById(a, id) + RemoveById(b, id)
  {
    if a == [] {
      assert a + b == b;
    } else {
      assert (a + b)[1..] == a[1..] + b;
      RemoveByIdAppend(a[1..], b, id);
    }
  }

  /** A list with no row carrying `id` is left as it is. */
  lemma {:induction false} RemoveByIdAbsent(s: seq<User>, id: int)
    requires forall i :: 0 <= i < |s| ==> s[i].id != id
    ensures RemoveById(s, id) == s
  {
    if s != [] {
      RemoveByIdAbsent(s[1..], id);
      assert s == [s[0]] + s[1..];
    }
  }

  /** Deleting the same user twice removes nothing more the second time. */
  lemma {:induction false} RemoveByIdIdempotent(s: seq<User>, id: int)
    ensures RemoveById(RemoveById(s, id), id) == RemoveById(s, id)
  {
    var r := RemoveById(s, id);
    forall i | 0 <= i < |r| ensures r[i].id != id {
      assert r[i] in r;
    }
    RemoveByIdAbsent(r, id);
  }

  /** The rows, with every row whose id is the draft's replaced by the draft. */
  function ReplaceById(s: seq<User>, draft: User): (r: seq<User>)
    ensures |r| == |s|
    ensures Ids(r) == Ids(s)
    ensures forall i :: 0 <= i < |s| && s[i].id == draft.id ==> r[i] == draft
    ensures forall i :: 0 <= i < |s| && s[i].id != draft.id ==> r[i] == s[i]
  {
    if s == [] then []
    else [if s[0].id == draft.id then draft else s[0]] + ReplaceById(s[1..], draft)
  }

  /** Saving the same draft twice gives the list the first save gave. */
  lemma ReplaceByIdIdempotent(s: seq<User>, draft: User)
    ensures ReplaceById(ReplaceById(s, draft), draft) == ReplaceById(s, draft)
  {
  }

  /** Saving a draft that equals every row with its id leaves the list as it was. */
  lemma ReplaceByIdUnchanged(s: seq<User>, draft: User)
    requires forall i :: 0 <= i < |s| && s[i].id == draft.id ==> s[i] == draft
    ensures ReplaceById(s, draft) == s
  {
  }

  /** Deleting a user after saving their draft gives the list that deleting
      alone gives: the save touches only rows the delete then drops. */
  lemma {:induction false} RemoveAfterReplace(s: seq<User>, draft: User)
    ensures RemoveById(ReplaceById(s, draft), draft.id) == RemoveById(s, draft.id)
  {
    if s != [] {
      var r := ReplaceById(s, draft);
      assert r[1..] == ReplaceById(s[1..], draft);
      RemoveAfterReplace(s[1..], draft);
    }
  }
}
