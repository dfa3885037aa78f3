/** The live schema under the relationship requests of the server: upsert, replace, delete
  * and refresh, each with a storage write that may fail. */
module RelationshipEdits {
  import opened Relationships
  import opened FilterPaths
  import opened JoinPath
  import opened JoinOrder

  datatype Reply = Created | NoContent | BadRequest | ReverseExists | NotFound | StorageError

  predicate Matches(req: Relationship, rel: Relationship) {
    && rel.fromTable == req.fromTable && rel.fromColumn == req.fromColumn
    && rel.toTable == req.toTable && rel.toColumn == req.toColumn
  }

  predicate Reverses(req: Relationship, rel: Relationship) {
    && rel.fromTable == req.toTable && rel.fromColumn == req.toColumn
    && rel.toTable == req.fromTable && rel.toColumn == req.fromColumn
  }

  // ---- what a request does to the sequence ----

  ghost function Without(rels: seq<Relationship>, req: Relationship): seq<Relationship> {
    if rels == [] then [] else
    var rest := Without(rels[..|rels| - 1], req);
    if Matches(req, rels[|rels| - 1]) then rest else rest + [rels[|rels| - 1]]
  }

  /** Sets the flag of the first match, or appends. */
  ghost function Upsert(rels: seq<Relationship>, req: Relationship): seq<Relationship> {
    if rels == [] then [req]
    else if Matches(req, rels[0]) then [rels[0].(bidirectional := req.bidirectional)] + rels[1..]
    else [rels[0]] + Upsert(rels[1..], req)
  }

  ghost predicate Present(rels: seq<Relationship>, req: Relationship) {
    exists i :: 0 <= i < |rels| && Matches(req, rels[i])
  }

  ghost predicate Blocked(rels: seq<Relationship>, original: Relationship, replacement: Relationship) {
    exists i :: 0 <= i < |rels| && !Matches(original, rels[i]) && Reverses(replacement, rels[i])
  }

  datatype Request =
    | Add(rel: Relationship, stored: bool)
    | Replace(original: Relationship, replacement: Relationship, stored: bool)
    | Delete(rel: Relationship, stored: bool)
    | Refresh(loaded: Option<seq<Relationship>>)

  ghost predicate Accepted(rels: seq<Relationship>, req: Request) {
    match req
    case Add(rel, stored) => FilterPathsValid(Upsert(rels, rel)) && stored
    case Replace(original, replacement, stored) =>
      && Present(rels, original) && !Blocked(rels, original, replacement)
      && FilterPathsValid(Without(rels, original) + [replacement]) && stored
    case Delete(_, stored) => stored
    case Refresh(loaded) => loaded.Some? && FilterPathsValid(loaded.value)
  }

  ghost function Serve(rels: seq<Relationship>, req: Request): seq<Relationship> {
    if !Accepted(rels, req) then rels else
    match req
    case Add(rel, _) => Upsert(rels, rel)
    case Replace(original, replacement, _) => Without(rels, original) + [replacement]
    case Delete(rel, _) => Without(rels, rel)
    case Refresh(loaded) => loaded.value
  }

  ghost function Run(rels: seq<Relationship>, reqs: seq<Request>): seq<Relationship> {
    if reqs == [] then rels else Serve(Run(rels, reqs[..|reqs| - 1]), reqs[|reqs| - 1])
  }

  // ---- the handlers ----

  class LiveSchema {
    var relationships: seq<Relationship>

    constructor (loaded: seq<Relationship>)
      requires FilterPathsValid(loaded)
      ensures relationships == loaded
    {
      relationships := loaded;
    }

    method RemoveRelationship(req: Relationship)
      modifies this
      ensures relationships == Without(old(relationships), req)
    {
      var rels := [];
      for i := 0 to |relationships|
        invariant relationships == old(relationships)
        invariant rels == Without(relationships[..i], req)
      {
        assert relationships[..i + 1][..i] == relationships[..i];
        if !Matches(req, relationships[i]) {
          rels := rels + [relationships[i]];
        }
      }
      assert relationships[..|relationships|] == relationships;
      relationships := rels;
    }

    /** The edit is made first and taken back when validation or storage refuses it. */
    method AddRelationship(req: Relationship, stored: bool) returns (reply: Reply)
      modifies this
      ensures relationships == Serve(old(relationships), Add(req, stored))
      ensures reply == Created <==> Accepted(old(relationships), Add(req, stored))
      ensures reply == BadRequest <==> !FilterPathsValid(Upsert(old(relationships), req))
      ensures reply == StorageError <==> FilterPathsValid(Upsert(old(relationships), req)) && !stored
    {
      var existing: Option<nat> := None;
      for i := 0 to |relationships|
        invariant existing.None? && relationships == old(relationships)
        invariant forall j :: 0 <= j < i ==> !Matches(req, relationships[j])
      {
        if Matches(req, relationships[i]) {
          existing := Some(i);
          break;
        }
      }
      var prevBidi := false;
      if existing.Some? {
        var i := existing.value;
        UpsertFirst(relationships, req, i);
        prevBidi := relationships[i].bidirectional;
        relationships := relationships[i := relationships[i].(bidirectional := req.bidirectional)];
      } else {
        UpsertNew(relationships, req);
        relationships := relationships + [req];
      }
      var check := ValidateFilterPaths(relationships);
      if check.Conflict? || !stored {
        if existing.Some? {
          var i := existing.value;
          relationships := relationships[i := relationships[i].(bidirectional := prevBidi)];
          assert relationships == old(relationships);
        } else {
          RemoveRelationship(req);
          WithoutAbsent(old(relationships), req);
          assert (old(relationships) + [req])[..|old(relationships)|] == old(relationships);
        }
        return if check.Conflict? then BadRequest else StorageError;
      }
      return Created;
    }

    method ReplaceRelationship(original: Relationship, replacement: Relationship, stored: bool) returns (reply: Reply)
      modifies this
      ensures relationships == Serve(old(relationships), Replace(original, replacement, stored))
      ensures reply == NoContent <==> Accepted(old(relationships), Replace(original, replacement, stored))
      ensures reply == ReverseExists <==> Blocked(old(relationships), original, replacement)
      ensures reply == NotFound <==>
        !Blocked(old(relationships), original, replacement) && !Present(old(relationships), original)
      ensures reply == BadRequest <==>
        && !Blocked(old(relationships), original, replacement) && Present(old(relationships), original)
        && !FilterPathsValid(Without(old(relationships), original) + [replacement])
      ensures reply == StorageError <==>
        && !Blocked(old(relationships), original, replacement) && Present(old(relationships), original)
        && FilterPathsValid(Without(old(relationships), original) + [replacement]) && !stored
    {
      var found := false;
      var candidate := [];
      for i := 0 to |relationships|
        invariant found <==> Present(relationships[..i], original)
        invariant !Blocked(relationships[..i], original, replacement)
        invariant candidate == Without(relationships[..i], original)
      {
        var rel := relationships[i];
        assert relationships[..i + 1] == relationships[..i] + [rel];
        if Matches(original, rel) {
          found := true;
          assert relationships[..i + 1][i] == rel;
          continue;
        }
        if Reverses(replacement, rel) {
          assert Blocked(relationships, original, replacement);
          return ReverseExists;
        }
        candidate := candidate + [rel];
      }
      assert relationships[..|relationships|] == relationships;
      if !found {
        return NotFound;
      }
      candidate := candidate + [replacement];
      var check := ValidateFilterPaths(candidate);
      if check.Conflict? {
        return BadRequest;
      }
      if !stored {
        return StorageError;
      }
      RemoveRelationship(original);
      relationships := relationships + [candidate[|candidate| - 1]];
      return NoContent;
    }

    method DeleteRelationship(req: Relationship, stored: bool) returns (reply: Reply)
      modifies this
      ensures relationships == Serve(old(relationships), Delete(req, stored))
      ensures reply == if stored then NoContent else StorageError
    {
      if !stored {
        return StorageError;
      }
      RemoveRelationship(req);
      return NoContent;
    }

    /** The freshly loaded graph replaces the live one once it validates. */
    method RefreshSchema(loaded: Option<seq<Relationship>>) returns (reply: Reply)
      modifies this
      ensures relationships == Serve(old(relationships), Refresh(loaded))
      ensures reply == NoContent <==> Accepted(old(relationships), Refresh(loaded))
      ensures reply == StorageError <==> loaded.None?
    {
      if loaded.None? {
        return StorageError;
      }
      var check := ValidateFilterPaths(loaded.value);
      if check.Conflict? {
        return BadRequest;
      }
      relationships := loaded.value;
      return NoContent;
    }
  }

  // ---- facts about the sequence edits ----

  lemma UpsertFirst(rels: seq<Relationship>, req: Relationship, i: nat)
    requires i < |rels| && Matches(req, rels[i])
    requires forall j :: 0 <= j < i ==> !Matches(req, rels[j])
    ensures Upsert(rels, req) == rels[i := rels[i].(bidirectional := req.bidirectional)]
  {
    if i > 0 {
      var tail := rels[1..];
      assert forall j :: 0 <= j < |tail| ==> tail[j] == rels[j + 1];
      UpsertFirst(tail, req, i - 1);
      var to := rels[i].(bidirectional := req.bidirectional);
      assert [rels[0]] + tail[i - 1 := to] == rels[i := to];
    } else {
      var to := rels[0].(bidirectional := req.bidirectional);
      assert [to] + rels[1..] == rels[0 := to];
    }
  }

  lemma UpsertNew(rels: seq<Relationship>, req: Relationship)
    requires !Present(rels, req)
    ensures Upsert(rels, req) == rels + [req]
  {
  }

  lemma WithoutAbsent(rels: seq<Relationship>, req: Relationship)
    requires !Present(rels, req)
    ensures Without(rels, req) == rels
  {
  }

  lemma WithoutEmbeds(rels: seq<Relationship>, req: Relationship) returns (at: seq<nat>)
    ensures Embeds(Without(rels, req), rels, at)
  {
    if rels == [] {
      at := [];
    } else {
      var n := |rels| - 1;
      at := WithoutEmbeds(rels[..n], req);
      if !Matches(req, rels[n]) {
        at := at + [n];
      }
    }
  }

  // ---- what the edits leave ----

  /** The relationship is the requested one, its flag aside. */
  ghost predicate IsIt(req: Relationship, rel: Relationship) {
    rel.(bidirectional := req.bidirectional) == req
  }

  /** After an upsert the requested relationship is there with its flag, every other one is still in its
    * place - a parallel one over another column too - and one is added only where there was none. */
  lemma {:induction false} UpsertMeans(rels: seq<Relationship>, req: Relationship)
    ensures var after := Upsert(rels, req);
      && req in after && |after| == (if exists r :: r in rels && IsIt(req, r) then |rels| else |rels| + 1)
      && (forall i :: 0 <= i < |rels| && !IsIt(req, rels[i]) ==> after[i] == rels[i])
      && forall i :: 0 <= i < |after| ==> after[i] == req || (i < |rels| && after[i] == rels[i])
  {
    if rels != [] && !Matches(req, rels[0]) {
      var tail := rels[1..];
      UpsertMeans(tail, req);
      var rest, after := Upsert(tail, req), Upsert(rels, req);
      assert forall i :: 0 <= i < |tail| ==> tail[i] == rels[i + 1];
      assert forall i :: 0 <= i < |rest| ==> rest[i] == after[i + 1];
      assert req in rest;
      assert rels == [rels[0]] + tail;
    } else if rels != [] {
      assert Upsert(rels, req)[0] == req && IsIt(req, rels[0]) && rels[0] in rels;
    } else {
      assert Upsert(rels, req)[0] == req;
    }
  }

  /** Deleting leaves exactly the other relationships. */
  lemma {:induction false} WithoutMeans(rels: seq<Relationship>, req: Relationship, r: Relationship)
    ensures r in Without(rels, req) <==> r in rels && !IsIt(req, r)
  {
    if rels != [] {
      WithoutMeans(rels[..|rels| - 1], req, r);
      assert rels == rels[..|rels| - 1] + [rels[|rels| - 1]];
    }
  }

  function Turned(r: Relationship): Relationship {
    Relationship(r.toTable, r.toColumn, r.fromTable, r.fromColumn, r.bidirectional)
  }

  /** A replacement is refused as a duplicate exactly when it reads some other relationship backwards, and
    * is not found exactly when the original is not there. */
  lemma ReplaceMeans(rels: seq<Relationship>, original: Relationship, replacement: Relationship)
    ensures Present(rels, original) <==> exists r :: r in rels && IsIt(original, r)
    ensures Blocked(rels, original, replacement) <==>
      exists r :: r in rels && !IsIt(original, r) && IsIt(replacement, Turned(r))
  {
    if i :| 0 <= i < |rels| && Matches(original, rels[i]) {
      assert IsIt(original, rels[i]);
    }
    if r :| r in rels && IsIt(original, r) {
      var i :| 0 <= i < |rels| && rels[i] == r;
      assert Matches(original, rels[i]);
    }
    if i :| 0 <= i < |rels| && !Matches(original, rels[i]) && Reverses(replacement, rels[i]) {
      assert !IsIt(original, rels[i]) && IsIt(replacement, Turned(rels[i]));
    }
    if r :| r in rels && !IsIt(original, r) && IsIt(replacement, Turned(r)) {
      var i :| 0 <= i < |rels| && rels[i] == r;
      assert !Matches(original, rels[i]) && Reverses(replacement, rels[i]);
    }
  }

  // ---- every run ----

  lemma ServeKeepsValid(rels: seq<Relationship>, req: Request)
    requires FilterPathsValid(rels)
    ensures FilterPathsValid(Serve(rels, req))
  {
    if req.Delete? && req.stored {
      var at := WithoutEmbeds(rels, req.rel);
      EmbeddedIsValid(Without(rels, req.rel), rels, at);
    }
  }

  /** However requests and storage failures follow each other, every bidirectional relationship
    * of the live graph stays a bridge. */
  lemma RunKeepsValid(rels: seq<Relationship>, reqs: seq<Request>)
    requires FilterPathsValid(rels)
    ensures FilterPathsValid(Run(rels, reqs))
  {
    hide FilterPathsValid, Serve;
    if reqs != [] {
      RunKeepsValid(rels, reqs[..|reqs| - 1]);
      ServeKeepsValid(Run(rels, reqs[..|reqs| - 1]), reqs[|reqs| - 1]);
    }
  }

  lemma WithoutLast(rels: seq<Relationship>, rel: Relationship)
    requires !Present(rels, rel)
    ensures Without(rels + [rel], rel) == rels
  {
    WithoutAbsent(rels, rel);
    assert (rels + [rel])[..|rels|] == rels;
  }

  /** Deleting a relationship just added restores the sequence. */
  lemma AddThenDelete(rels: seq<Relationship>, rel: Relationship)
    requires !Present(rels, rel) && Accepted(rels, Add(rel, true))
    ensures Run(rels, [Add(rel, true), Delete(rel, true)]) == rels
  {
    UpsertNew(rels, rel);
    WithoutLast(rels, rel);
    var reqs := [Add(rel, true), Delete(rel, true)];
    assert reqs[..1] == [Add(rel, true)] && reqs[..1][..0] == [];
    assert Run(rels, reqs[..1]) == Serve(Run(rels, reqs[..1][..0]), reqs[0]);
  }

  lemma WithoutUnique(rels: seq<Relationship>, k: nat)
    requires k < |rels|
    requires forall i :: 0 <= i < |rels| && Matches(rels[k], rels[i]) ==> i == k
    ensures Without(rels, rels[k]) == rels[..k] + rels[k + 1..]
  {
    var pre, post := rels[..k], rels[k + 1..];
    NoneMatches(rels, k);
    assert rels == (pre + [rels[k]]) + post;
    hide Without, Present, Matches;
    WithoutConcat(pre + [rels[k]], post, rels[k]);
    WithoutLast(pre, rels[k]);
    WithoutAbsent(post, rels[k]);
  }

  lemma NoneMatches(rels: seq<Relationship>, k: nat)
    requires k < |rels|
    requires forall i :: 0 <= i < |rels| && Matches(rels[k], rels[i]) ==> i == k
    ensures !Present(rels[..k], rels[k]) && !Present(rels[k + 1..], rels[k])
  {
    var post := rels[k + 1..];
    assert forall i :: 0 <= i < |post| ==> post[i] == rels[k + 1 + i];
  }

  lemma WithoutConcat(a: seq<Relationship>, b: seq<Relationship>, req: Relationship)
    ensures Without(a + b, req) == Without(a, req) + Without(b, req)
    decreases |b|
  {
    if b == [] {
      assert a + b == a;
    } else {
      var n := |b| - 1;
      WithoutConcat(a, b[..n], req);
      assert (a + b)[..|a + b| - 1] == a + b[..n];
    }
  }

  /** Replacing a relationship and replacing it back leaves every inferred join path as it was. */
  lemma ReplaceBack(rels: seq<Relationship>, k: nat, other: Relationship, tables: seq<Table>)
    requires k < |rels| && !Present(rels, other)
    requires forall i :: 0 <= i < |rels| && Matches(rels[k], rels[i]) ==> i == k
    ensures Infer(Without(Without(rels, rels[k]) + [other], other) + [rels[k]], tables) == Infer(rels, tables)
  {
    var rest := Without(rels, rels[k]);
    WithoutUnique(rels, k);
    DropOne(rels, k);
    forall i | 0 <= i < |rest|
      ensures !Matches(other, rest[i])
    {
      var at := WithoutEmbeds(rels, rels[k]);
      assert rest[i] == rels[at[i]];
    }
    WithoutLast(rest, other);
    assert multiset(rest + [rels[k]]) == multiset(rels);
    InferOrderFree(rest + [rels[k]], rels, tables);
  }
}
