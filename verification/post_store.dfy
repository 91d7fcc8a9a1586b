/** The three list operations the application applies to its local copy of
    the collection: prepend a created post, replace by id, remove by id. */
module PostStore {
  import opened Types

  /** True when some entry carries `id`. */
  predicate HasId(posts: seq<Post>, id: int) {
    exists i :: 0 <= i < |posts| && posts[i].id == id
  }

  /** Number of entries that carry `id`. */
  function Count(posts: seq<Post>, id: int): nat {
    if |posts| == 0 then 0
    else (if posts[0].id == id then 1 else 0) + Count(posts[1..], id)
  }

  /** No two entries share an id: the invariant the server is expected to maintain. */
  predicate UniqueIds(posts: seq<Post>) {
    forall i, j :: 0 <= i < j < |posts| ==> posts[i].id != posts[j].id
  }

  /** `[post, ...posts]`: a created post goes in front, the rest keep their order. */
  function Prepend(posts: seq<Post>, post: Post): (r: seq<Post>)
    ensures |r| == |posts| + 1
    ensures r[0] == post
    ensures r[1..] == posts
  {
    [post] + posts
  }

  /** `posts.map(p => p.id === id ? updated : p)`. */
  function ReplaceById(posts: seq<Post>, id: int, updated: Post): (r: seq<Post>)
    ensures |r| == |posts|
    ensures forall i :: 0 <= i < |posts| && posts[i].id == id ==> r[i] == updated
    ensures forall i :: 0 <= i < |posts| && posts[i].id != id ==> r[i] == posts[i]
  {
    if |posts| == 0 then []
    else [if posts[0].id == id then updated else posts[0]] + ReplaceById(posts[1..], id, updated)
  }

  /** `posts.filter(p => p.id !== id)`. */
  function RemoveById(posts: seq<Post>, id: int): (r: seq<Post>)
    ensures |r| == |posts| - Count(posts, id)
    ensures forall i :: 0 <= i < |r| ==> r[i].id != id
    ensures forall p :: p in r <==> p in posts && p.id != id
  {
    if |posts| == 0 then []
    else if posts[0].id == id then RemoveById(posts[1..], id)
    else [posts[0]] + RemoveById(posts[1..], id)
  }

  /** Replacing by id a second time changes nothing: every entry that could
      match has already become `updated`. */
  lemma ReplaceIdempotent(posts: seq<Post>, id: int, updated: Post)
    ensures ReplaceById(ReplaceById(posts, id, updated), id, updated) == ReplaceById(posts, id, updated)
  {
  }

  /** Removal is a filter on multiplicities: a post with another id stays
      exactly as often as it occurred, a post with the id disappears. With
      `RemoveDistributes` this rules out reordering and duplication. */
  lemma {:induction false} RemoveMultiset(posts: seq<Post>, id: int)
    ensures forall p :: multiset(RemoveById(posts, id))[p]
                        == if p.id == id then 0 else multiset(posts)[p]
  {
    if |posts| > 0 {
      var t := posts[1..];
      assert posts == [posts[0]] + t;
      RemoveCons(posts[0], t, id);
      RemoveMultiset(t, id);
    }
  }

  /** Removal from a list with a first entry looks at that entry, then at the rest. */
  lemma RemoveCons(p: Post, rest: seq<Post>, id: int)
    ensures RemoveById([p] + rest, id)
         == if p.id == id then RemoveById(rest, id) else [p] + RemoveById(rest, id)
  {
    assert ([p] + rest)[0] == p;
    assert ([p] + rest)[1..] == rest;
  }

  /** Removal works piece by piece, so it keeps the relative order of the
      entries it keeps. */
  lemma {:induction false} RemoveDistributes(a: seq<Post>, b: seq<Post>, id: int)
    ensures RemoveById(a + b, id) == RemoveById(a, id) + RemoveById(b, id)
  {
    if |a| == 0 {
      assert a + b == b;
    } else {
      var t := a[1..];
      assert a == [a[0]] + t;
      assert a + b == [a[0]] + (t + b);
      RemoveDistributes(t, b, id);
      if a[0].id == id {
        calc {
          RemoveById(a + b, id);
          { RemoveCons(a[0], t + b, id); }
          RemoveById(t + b, id);
          RemoveById(t, id) + RemoveById(b, id);
          { RemoveCons(a[0], t, id); }
          RemoveById(a, id) + RemoveById(b, id);
        }
      } else {
        calc {
          RemoveById(a + b, id);
          { RemoveCons(a[0], t + b, id); }
          [a[0]] + RemoveById(t + b, id);
          [a[0]] + (RemoveById(t, id) + RemoveById(b, id));
          ([a[0]] + RemoveById(t, id)) + RemoveById(b, id);
          { RemoveCons(a[0], t, id); }
          RemoveById(a, id) + RemoveById(b, id);
        }
      }
    }
  }

  /** An id nobody carries is not carried by the tail either. */
  lemma TailNoId(posts: seq<Post>, id: int)
    requires |posts| > 0 && !HasId(posts, id)
    ensures !HasId(posts[1..], id)
  {
    forall i | 0 <= i < |posts[1..]| ensures posts[1..][i].id != id {
      assert posts[1..][i] == posts[i + 1];
    }
  }

  /** Removing an id nobody carries returns the list unchanged. */
  lemma {:induction false} RemoveAbsent(posts: seq<Post>, id: int)
    requires !HasId(posts, id)
    ensures RemoveById(posts, id) == posts
  {
    if |posts| > 0 {
      assert posts[0].id != id;
      TailNoId(posts, id);
      RemoveAbsent(posts[1..], id);
      assert posts == [posts[0]] + posts[1..];
    }
  }

  /** An id nobody carries is counted zero times. */
  lemma {:induction false} CountAbsent(posts: seq<Post>, id: int)
    requires !HasId(posts, id)
    ensures Count(posts, id) == 0
  {
    if |posts| > 0 {
      assert posts[0].id != id;
      TailNoId(posts, id);
      CountAbsent(posts[1..], id);
    }
  }

  /** Dropping the first entry keeps ids unique. */
  lemma TailUnique(posts: seq<Post>)
    requires |posts| > 0 && UniqueIds(posts)
    ensures UniqueIds(posts[1..])
    ensures !HasId(posts[1..], posts[0].id)
  {
    forall i | 0 <= i < |posts[1..]| ensures posts[1..][i].id != posts[0].id {
      assert posts[1..][i] == posts[i + 1];
    }
  }

  /** With unique ids, an id that is present is carried by exactly one entry. */
  lemma {:induction false} CountUnique(posts: seq<Post>, id: int)
    requires UniqueIds(posts) && HasId(posts, id)
    ensures Count(posts, id) == 1
  {
    TailUnique(posts);
    if posts[0].id == id {
      CountAbsent(posts[1..], id);
    } else {
      var k :| 0 <= k < |posts| && posts[k].id == id;
      assert posts[1..][k - 1].id == id;
      CountUnique(posts[1..], id);
    }
  }

  /** With unique ids, removing a present id shortens the list by exactly one. */
  lemma RemoveUniqueDropsOne(posts: seq<Post>, id: int)
    requires UniqueIds(posts) && HasId(posts, id)
    ensures |RemoveById(posts, id)| == |posts| - 1
  {
    CountUnique(posts, id);
  }

  /** Prepending a post whose id is new keeps ids unique. */
  lemma PrependKeepsUnique(posts: seq<Post>, post: Post)
    requires UniqueIds(posts) && !HasId(posts, post.id)
    ensures UniqueIds(Prepend(posts, post))
  {
    var r := Prepend(posts, post);
    forall i, j | 0 <= i < j < |r| ensures r[i].id != r[j].id {
      assert r[j] == posts[j - 1];
      if i > 0 {
        assert r[i] == posts[i - 1];
      }
    }
  }

  /** Replacing entries of `id` by a post that carries `id` keeps ids unique. */
  lemma ReplaceKeepsUnique(posts: seq<Post>, id: int, updated: Post)
    requires UniqueIds(posts) && updated.id == id
    ensures UniqueIds(ReplaceById(posts, id, updated))
  {
    var r := ReplaceById(posts, id, updated);
    forall i, j | 0 <= i < j < |r| ensures r[i].id != r[j].id {
      assert r[i].id == posts[i].id;
      assert r[j].id == posts[j].id;
    }
  }

  /** A post whose id the rest does not carry can go in front of it. */
  lemma ConsUnique(p: Post, rest: seq<Post>)
    requires UniqueIds(rest) && !HasId(rest, p.id)
    ensures UniqueIds([p] + rest)
  {
    var r := [p] + rest;
    forall i, j | 0 <= i < j < |r| ensures r[i].id != r[j].id {
      assert r[j] == rest[j - 1];
      if i > 0 {
        assert r[i] == rest[i - 1];
      }
    }
  }

  /** Removal introduces no id the list did not carry. */
  lemma RemoveHasId(posts: seq<Post>, id: int, x: int)
    requires HasId(RemoveById(posts, id), x)
    ensures HasId(posts, x)
  {
    var r := RemoveById(posts, id);
    var k :| 0 <= k < |r| && r[k].id == x;
    assert r[k] in r;
    var j :| 0 <= j < |posts| && posts[j] == r[k];
  }

  /** Removal keeps ids unique. */
  lemma {:induction false} RemoveKeepsUnique(posts: seq<Post>, id: int)
    requires UniqueIds(posts)
    ensures UniqueIds(RemoveById(posts, id))
  {
    if |posts| > 0 {
      TailUnique(posts);
      RemoveKeepsUnique(posts[1..], id);
      if posts[0].id != id {
        var rest := RemoveById(posts[1..], id);
        if HasId(rest, posts[0].id) {
          RemoveHasId(posts[1..], id, posts[0].id);
        }
        ConsUnique(posts[0], rest);
      }
    }
  }
}
