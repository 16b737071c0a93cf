/**
 Properties of the post store that relate several operations: lookups after
 writes, the strictly-increasing-id invariant over any sequence of requests
 starting from the seed list, and the id reuse that follows from allocating
 "last id + 1".
 */
module PostsProperties {
  import opened Wrappers
  import opened PostsService

  // ---------------------------------------------------------------------------
  // Helper facts about the list functions
  // ---------------------------------------------------------------------------

  /** Every element of a subsequence is an element of the whole. */
  lemma {:induction false} SubsequenceMembers(a: Store, b: Store)
    requires IsSubsequence(a, b)
    ensures forall x :: x in a ==> x in b
    decreases |b|
  {
    if |a| == 0 {
    } else if a[0] == b[0] {
      SubsequenceMembers(a[1..], b[1..]);
      forall x | x in a ensures x in b {
        if x != a[0] {
          assert x in a[1..];
        }
      }
    } else {
      SubsequenceMembers(a, b[1..]);
    }
  }

  /** Dropping elements from a list with strictly increasing ids keeps them strictly increasing. */
  lemma {:induction false} SubsequenceKeepsIncreasing(a: Store, b: Store)
    requires IsSubsequence(a, b)
    requires StrictlyIncreasing(b)
    ensures StrictlyIncreasing(a)
    decreases |b|
  {
    if |a| == 0 {
    } else if a[0] == b[0] {
      SubsequenceKeepsIncreasing(a[1..], b[1..]);
      SubsequenceMembers(a[1..], b[1..]);
      forall j | 1 <= j < |a| ensures a[0].id < a[j].id {
        assert a[j] in a[1..];
        assert a[j] in b[1..];
      }
    } else {
      SubsequenceKeepsIncreasing(a, b[1..]);
    }
  }

  /** In a list with strictly increasing ids, an id occurs at most once. */
  lemma {:induction false} CountIdOfIncreasing(s: Store, k: int)
    requires StrictlyIncreasing(s)
    ensures CountId(s, k) == if HasId(s, k) then 1 else 0
  {
    if |s| == 0 {
    } else {
      CountIdOfIncreasing(s[1..], k);
      if s[0].id == k {
        assert !HasId(s[1..], k) by {
          forall i | 0 <= i < |s[1..]| ensures s[1..][i].id != k {
            assert s[1..][i] == s[i + 1];
          }
        }
      } else {
        assert HasId(s, k) <==> HasId(s[1..], k) by {
          if HasId(s, k) {
            var i :| 0 <= i < |s| && s[i].id == k;
            assert s[1..][i - 1] == s[i];
          }
          if HasId(s[1..], k) {
            var i :| 0 <= i < |s[1..]| && s[1..][i].id == k;
            assert s[i + 1] == s[1..][i];
          }
        }
      }
    }
  }

  /** The delete's filter keeps exactly the posts whose id differs from `k`. */
  lemma {:induction false} RemoveIdMembers(s: Store, k: int)
    ensures forall p :: p in RemoveId(s, k) <==> p in s && p.id != k
  {
    if |s| > 0 {
      RemoveIdMembers(s[1..], k);
      assert s == [s[0]] + s[1..];
    }
  }

  /** Filtering a concatenation filters each part. */
  lemma {:induction false} RemoveIdAppend(a: Store, b: Store, k: int)
    ensures RemoveId(a + b, k) == RemoveId(a, k) + RemoveId(b, k)
  {
    if |a| == 0 {
      assert a + b == b;
    } else {
      var ab := a + b;
      assert ab[0] == a[0];
      assert ab[1..] == a[1..] + b;
      RemoveIdAppend(a[1..], b, k);
      if a[0].id == k {
        calc {
          RemoveId(ab, k);
          RemoveId(a[1..] + b, k);
          RemoveId(a[1..], k) + RemoveId(b, k);
          RemoveId(a, k) + RemoveId(b, k);
        }
      } else {
        calc {
          RemoveId(ab, k);
          [a[0]] + RemoveId(a[1..] + b, k);
          [a[0]] + (RemoveId(a[1..], k) + RemoveId(b, k));
          ([a[0]] + RemoveId(a[1..], k)) + RemoveId(b, k);
          RemoveId(a, k) + RemoveId(b, k);
        }
      }
    }
  }

  /** Filtering out an id that does not occur changes nothing. */
  lemma {:induction false} RemoveIdAbsent(s: Store, k: int)
    requires !HasId(s, k)
    ensures RemoveId(s, k) == s
  {
    if |s| > 0 {
      assert s[0].id != k;
      assert !HasId(s[1..], k) by {
        forall i | 0 <= i < |s[1..]| ensures s[1..][i].id != k {
          assert s[1..][i] == s[i + 1];
        }
      }
      RemoveIdAbsent(s[1..], k);
      assert s == [s[0]] + s[1..];
    }
  }

  // ---------------------------------------------------------------------------
  // Single operations under the strictly-increasing-id invariant
  // ---------------------------------------------------------------------------

  /** The seed list has ids 1, 2, 3 and so satisfies the invariant. */
  lemma SeedIsStrictlyIncreasing()
    ensures StrictlyIncreasing(Seed)
    ensures |Seed| == 3 && Seed[0].id == 1 && Seed[1].id == 2 && Seed[2].id == 3
  {
  }

  /** getAllPosts hands back the current list, and a lookup succeeds exactly for the ids it lists. */
  lemma AllPostsListsEveryLookup(s: Store, k: int)
    ensures GetAllPosts(s) == (s, s)
    ensures GetPostById(s, k).Ok? <==> exists p :: p in GetAllPosts(s).1 && p.id == k
  {
  }

  /** With distinct ids, the post a lookup returns is the only post with that id. */
  lemma LookupIsTheOnlyMatch(s: Store, k: int)
    requires StrictlyIncreasing(s)
    requires GetPostById(s, k).Ok?
    ensures forall i :: 0 <= i < |s| && s[i].id == k ==> s[i] == GetPostById(s, k).value.1
  {
  }

  /** A created post can be looked up by its new id and is the last post. */
  lemma LookupAfterCreate(s: Store, author: string, title: string, content: string)
    requires StrictlyIncreasing(s)
    requires CreatePost(s, author, title, content).Ok?
    ensures var (t, p) := CreatePost(s, author, title, content).value;
      GetPostById(t, p.id) == Ok((t, p)) && t[|t| - 1] == p
  {
  }

  /** With distinct ids, an update rewrites a single position and leaves every other post alone. */
  lemma UpdateIsPointUpdate(s: Store, k: int, author: Option<string>, title: Option<string>, content: Option<string>)
    requires StrictlyIncreasing(s)
    requires UpdatePost(s, k, author, title, content).Ok?
    ensures var (t, p) := UpdatePost(s, k, author, title, content).value;
      && t == s[FindIndex(s, k).value := p]
      && GetPostById(t, k) == Ok((t, p))
  {
  }

  /** With distinct ids, a delete removes exactly one post, keeps the invariant and the others. */
  lemma DeleteRemovesOnePost(s: Store, k: int)
    requires StrictlyIncreasing(s)
    requires DeletePost(s, k).Ok?
    ensures var (t, _) := DeletePost(s, k).value;
      && StrictlyIncreasing(t)
      && |t| == |s| - 1
      && (forall p :: p in t <==> p in s && p.id != k)
      && GetPostById(t, k) == Err(NotFound)
  {
    var (t, _) := DeletePost(s, k).value;
    SubsequenceKeepsIncreasing(t, s);
    CountIdOfIncreasing(s, k);
    RemoveIdMembers(s, k);
  }

  // ---------------------------------------------------------------------------
  // Id reuse after deleting the last post
  // ---------------------------------------------------------------------------

  /** Deleting post 3 from the seed list and creating a post gives the new post id 3 again. */
  lemma SeedDeleteLastThenCreateReusesId(author: string, title: string, content: string)
    ensures DeletePost(Seed, 3).Ok?
    ensures var t := DeletePost(Seed, 3).value.0;
      && CreatePost(t, author, title, content).Ok?
      && CreatePost(t, author, title, content).value.1.id == 3
  {
  }

  /**
   After deleting the last post, the next created post gets the previous post's
   id + 1, which is at most the deleted id: it is the deleted id again exactly
   when the two last ids were consecutive.
   */
  lemma DeleteLastThenCreate(s: Store, author: string, title: string, content: string)
    requires StrictlyIncreasing(s)
    requires |s| >= 2
    ensures var k := s[|s| - 1].id;
      && DeletePost(s, k) == Ok((s[..|s| - 1], k))
      && CreatePost(s[..|s| - 1], author, title, content).Ok?
      && var id := CreatePost(s[..|s| - 1], author, title, content).value.1.id;
         id <= k && (id == k <==> s[|s| - 2].id + 1 == k)
  {
    var n := |s|;
    var k := s[n - 1].id;
    var front := s[..n - 1];
    assert HasId(s, k);
    assert !HasId(front, k) by {
      forall i | 0 <= i < |front| ensures front[i].id != k {
        assert front[i] == s[i];
      }
    }
    assert s == front + [s[n - 1]];
    RemoveIdAppend(front, [s[n - 1]], k);
    RemoveIdAbsent(front, k);
    assert RemoveId([s[n - 1]], k) == [];
    assert RemoveId(s, k) == front;
  }

  /** Deleting the only post leaves an empty list, on which creating a post fails. */
  lemma DeleteOnlyPostBlocksCreate(s: Store, author: string, title: string, content: string)
    requires |s| == 1
    ensures DeletePost(s, s[0].id).Ok?
    ensures CreatePost(DeletePost(s, s[0].id).value.0, author, title, content) == Err(NoLastPost)
  {
  }

  // ---------------------------------------------------------------------------
  // Sequences of requests against the service's single list
  // ---------------------------------------------------------------------------

  /** One call into the service, with its arguments. */
  datatype Request =
    | GetAll
    | GetById(id: int)
    | Create(author: string, title: string, content: string)
    | Update(id: int, newAuthor: Option<string>, newTitle: Option<string>, newContent: Option<string>)
    | Delete(id: int)

  /** The list the service holds after an operation: the new list, or the old one when it raised. */
  function Commit<T>(s: Store, r: Result<(Store, T), ServiceError>): Store
  {
    match r
    case Ok((t, _)) => t
    case Err(_) => s
  }

  /** The list after one request. */
  function Step(s: Store, q: Request): Store
  {
    match q
    case GetAll => GetAllPosts(s).0
    case GetById(k) => Commit(s, GetPostById(s, k))
    case Create(a, t, c) => Commit(s, CreatePost(s, a, t, c))
    case Update(k, a, t, c) => Commit(s, UpdatePost(s, k, a, t, c))
    case Delete(k) => Commit(s, DeletePost(s, k))
  }

  /** The list after a sequence of requests, in order. */
  function Run(s: Store, qs: seq<Request>): Store
    decreases |qs|
  {
    if |qs| == 0 then s else Run(Step(s, qs[0]), qs[1..])
  }

  /** Every request keeps ids strictly increasing; reads and failed requests leave the list as it was. */
  lemma StepPreservesIncreasing(s: Store, q: Request)
    requires StrictlyIncreasing(s)
    ensures StrictlyIncreasing(Step(s, q))
    ensures q.GetAll? || q.GetById? ==> Step(s, q) == s
  {
    if q.Delete? && DeletePost(s, q.id).Ok? {
      DeleteRemovesOnePost(s, q.id);
    }
  }

  /** Any sequence of requests keeps ids strictly increasing. */
  lemma {:induction false} RunPreservesIncreasing(s: Store, qs: seq<Request>)
    requires StrictlyIncreasing(s)
    ensures StrictlyIncreasing(Run(s, qs))
    decreases |qs|
  {
    if |qs| > 0 {
      StepPreservesIncreasing(s, qs[0]);
      RunPreservesIncreasing(Step(s, qs[0]), qs[1..]);
    }
  }

  /** Every list the service can reach from its seed has pairwise distinct ids. */
  lemma ReachableIdsAreUnique(qs: seq<Request>)
    ensures var s := Run(Seed, qs);
      forall i, j :: 0 <= i < |s| && 0 <= j < |s| && i != j ==> s[i].id != s[j].id
  {
    SeedIsStrictlyIncreasing();
    RunPreservesIncreasing(Seed, qs);
    var s := Run(Seed, qs);
    forall i, j | 0 <= i < |s| && 0 <= j < |s| && i != j ensures s[i].id != s[j].id {
      if i < j { assert s[i].id < s[j].id; } else { assert s[j].id < s[i].id; }
    }
  }
}
