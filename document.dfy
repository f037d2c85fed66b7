/** The page under construction: the ordered list of blocks and the new list values the
    builder's handlers compute from it (append, filter, move, map-and-merge). */
module Document {
  import opened Wrappers
  import opened Catalog

  /** Why a canvas drop adds nothing: the dragged type tag has no palette entry, so the
      source's `.find(...).default` throws. */
  datatype Error = UnknownType(kind: string)

  /** No two blocks share an id. */
  ghost predicate UniqueIds(s: seq<Block>) {
    forall i, j :: 0 <= i < j < |s| ==> s[i].id != s[j].id
  }

  /** Some block carries id `k`. */
  ghost predicate HasId(s: seq<Block>, k: int) {
    exists b :: b in s && b.id == k
  }

  function Min(a: int, b: int): int { if a <= b then a else b }

  /** `s.slice(0, n)`: JavaScript clamps the end to the length. */
  function Take(s: seq<Block>, n: nat): (r: seq<Block>)
    ensures |r| == Min(n, |s|)
    ensures r == s[..|r|]
  {
    if n <= |s| then s[..n] else s
  }

  /** `s.slice(n)`: JavaScript clamps the start to the length. */
  function Skip(s: seq<Block>, n: nat): (r: seq<Block>)
    ensures |r| == |s| - Min(n, |s|)
    ensures Take(s, n) + r == s
  {
    if n <= |s| then s[n..] else []
  }

  /** The canvas-drop list `[...components, { id, type: kind, ...default }]`, or the
      error the missing palette entry raises. */
  function Appended(s: seq<Block>, kind: string, id: int): (r: Result<seq<Block>, Error>)
    ensures r.Err? <==> !IsKnown(kind)
    ensures r.Err? ==> r.error == UnknownType(kind)
    ensures r.Ok? ==> |r.value| == |s| + 1 && r.value[..|s|] == s
    ensures r.Ok? ==> r.value[|s|].id == id && r.value[|s|].kind == kind
    ensures r.Ok? ==> exists t :: t in ComponentTypes && t.kind == kind && r.value[|s|].fields == t.defaults
  {
    match Find(ComponentTypes, kind)
    case None => Err(UnknownType(kind))
    case Some(t) => Ok(s + [Block(id, kind, t.defaults)])
  }

  /** Each palette type appends a block with exactly that type's default fields. */
  lemma AppendedDefaults(s: seq<Block>, id: int)
    ensures Appended(s, "header", id) == Ok(s + [Block(id, "header", map["text" := Str("Page Header"), "size" := Str("xl")])])
    ensures Appended(s, "text", id) == Ok(s + [Block(id, "text", map["content" := Str("Add your text here...")])])
    ensures Appended(s, "image", id) == Ok(s + [Block(id, "image", map["src" := Str(""), "alt" := Str("Image placeholder")])])
    ensures Appended(s, "form", id) == Ok(s + [Block(id, "form", map["fields" := Arr([])])])
    ensures Appended(s, "divider", id) == Ok(s + [Block(id, "divider", map[])])
  {
    KnownKinds("header");
    KnownKinds("text");
    KnownKinds("image");
    KnownKinds("form");
    KnownKinds("divider");
  }

  /** `s.filter(comp => comp.id !== k)`. */
  function Without(s: seq<Block>, k: int): (r: seq<Block>)
    ensures forall b {:trigger b in r} :: b in r <==> b in s && b.id != k
    ensures |r| <= |s|
  {
    if |s| == 0 then []
    else if s[0].id != k then [s[0]] + Without(s[1..], k)
    else Without(s[1..], k)
  }

  /** Filtering keeps the whole list exactly when no block has id `k`: a trash drop of an
      id that is not on the page changes nothing, and one that is removes something. */
  lemma {:induction false} WithoutKeepsAll(s: seq<Block>, k: int)
    ensures |Without(s, k)| == |s| <==> !HasId(s, k)
    ensures !HasId(s, k) ==> Without(s, k) == s
  {
    if |s| > 0 {
      WithoutKeepsAll(s[1..], k);
      if s[0].id == k {
        assert s[0] in s;
      } else if HasId(s, k) {
        var b :| b in s && b.id == k;
        assert b in s[1..];
      } else {
        forall b | b in s[1..] ensures b.id != k {
          assert b in s;
        }
      }
    }
  }

  /** Filtering works piecewise, so the kept blocks stay in their original order. */
  lemma {:induction false} WithoutConcat(a: seq<Block>, b: seq<Block>, k: int)
    ensures Without(a + b, k) == Without(a, k) + Without(b, k)
  {
    if |a| > 0 {
      assert (a + b)[1..] == a[1..] + b;
      WithoutConcat(a[1..], b, k);
    } else {
      assert a + b == b;
    }
  }

  /** Filtering keeps ids unique. */
  lemma {:induction false} WithoutUnique(s: seq<Block>, k: int)
    requires UniqueIds(s)
    ensures UniqueIds(Without(s, k))
  {
    if |s| > 0 {
      var t := s[1..];
      assert UniqueIds(t) by {
        forall i, j | 0 <= i < j < |t| ensures t[i].id != t[j].id {
          assert t[i] == s[i + 1] && t[j] == s[j + 1];
        }
      }
      WithoutUnique(t, k);
      if s[0].id != k {
        var w := Without(t, k);
        forall x | x in w ensures x.id != s[0].id {
          var i :| 0 <= i < |t| && t[i] == x;
          assert x == s[i + 1];
        }
      }
    }
  }

  /** `s.find(comp => comp.id === k)`. */
  function FindById(s: seq<Block>, k: int): (r: Option<Block>)
    ensures r.Some? ==> r.value in s && r.value.id == k
    ensures r.Some? ==> exists i :: 0 <= i < |s| && s[i] == r.value && forall j :: 0 <= j < i ==> s[j].id != k
    ensures r.None? <==> !HasId(s, k)
  {
    if |s| == 0 then None
    else if s[0].id == k then Some(s[0])
    else
      var r := FindById(s[1..], k);
      assert r.Some? ==> exists i :: 1 <= i < |s| && s[i] == r.value && forall j :: 0 <= j < i ==> s[j].id != k by {
        if r.Some? {
          var i :| 0 <= i < |s[1..]| && s[1..][i] == r.value && forall j :: 0 <= j < i ==> s[1..][j].id != k;
          assert forall j :: 1 <= j < i + 1 ==> s[j] == s[1..][j - 1];
          assert s[i + 1] == r.value;
        }
      }
      r
  }

  /** The list a component drop builds: the dragged block is taken out and reinserted at
      the drop index of the shortened list. When no block has the dragged id the source
      inserts `undefined` between `before` and `after`; the list then holds a hole that
      is not a block. */
  datatype MoveOutcome = Reordered(blocks: seq<Block>) | UndefinedInserted(before: seq<Block>, after: seq<Block>)

  /** `[...filtered.slice(0, d), dragged, ...filtered.slice(d)]`. */
  function Moved(s: seq<Block>, k: int, d: nat): (r: MoveOutcome)
    ensures r.Reordered? <==> HasId(s, k)
  {
    var rest := Without(s, k);
    match FindById(s, k)
    case Some(b) => Reordered(Take(rest, d) + [b] + Skip(rest, d))
    case None => UndefinedInserted(Take(rest, d), Skip(rest, d))
  }

  /** Block `s[p]` is the only one with id `k`. */
  ghost predicate OnlyAt(s: seq<Block>, k: int, p: nat) {
    p < |s| && s[p].id == k && forall i :: 0 <= i < |s| && i != p ==> s[i].id != k
  }

  /** Around the only block with id `k`, no block carries `k`. */
  lemma OnlyAtParts(s: seq<Block>, k: int, p: nat)
    requires OnlyAt(s, k, p)
    ensures !HasId(s[..p], k) && !HasId(s[p + 1..], k)
  {
    forall x | x in s[..p] ensures x.id != k {
      var i :| 0 <= i < p && s[..p][i] == x;
      assert x == s[i];
    }
    forall x | x in s[p + 1..] ensures x.id != k {
      var i :| 0 <= i < |s| - p - 1 && s[p + 1..][i] == x;
      assert x == s[p + 1 + i];
    }
  }

  /** Taking the only block with id `k` out of the list leaves the blocks around it. */
  lemma WithoutOnly(s: seq<Block>, k: int, p: nat)
    requires OnlyAt(s, k, p)
    ensures Without(s, k) == s[..p] + s[p + 1..]
  {
    var a, b := s[..p], s[p + 1..];
    assert s == a + ([s[p]] + b);
    WithoutConcat(a, [s[p]] + b, k);
    WithoutConcat([s[p]], b, k);
    OnlyAtParts(s, k, p);
    WithoutKeepsAll(a, k);
    WithoutKeepsAll(b, k);
    assert [s[p]][1..] == [];
  }

  /** The lookup of the only block with id `k` finds it. */
  lemma FindOnly(s: seq<Block>, k: int, p: nat)
    requires OnlyAt(s, k, p)
    ensures FindById(s, k) == Some(s[p])
  {
    assert s[p] in s;
    var f := FindById(s, k).value;
    var i :| 0 <= i < |s| && s[i] == f;
  }

  /** Inserting `b` at index `m` of `rest`. */
  lemma InsertFacts(rest: seq<Block>, m: nat, b: Block)
    requires m <= |rest|
    ensures var t := rest[..m] + [b] + rest[m..];
      |t| == |rest| + 1 && t[m] == b && multiset(t) == multiset(rest) + multiset{b}
  {
    assert rest[..m] + rest[m..] == rest;
  }

  /** A list without id `k` has no `k` in either half either. */
  lemma NoIdInParts(rest: seq<Block>, m: nat, k: int)
    requires m <= |rest| && !HasId(rest, k)
    ensures !HasId(rest[..m], k) && !HasId(rest[m..], k)
  {
    forall x | x in rest[..m] ensures x.id != k {
      assert x in rest;
    }
    forall x | x in rest[m..] ensures x.id != k {
      assert x in rest;
    }
  }

  /** Filtering `k` out again undoes inserting the block with id `k`. */
  lemma WithoutInsert(rest: seq<Block>, m: nat, b: Block, k: int)
    requires m <= |rest| && !HasId(rest, k) && b.id == k
    ensures Without(rest[..m] + [b] + rest[m..], k) == rest
  {
    var x, y := rest[..m], rest[m..];
    WithoutConcat(x + [b], y, k);
    WithoutConcat(x, [b], k);
    assert [b][1..] == [];
    assert Without([b], k) == [];
    NoIdInParts(rest, m, k);
    WithoutKeepsAll(x, k);
    WithoutKeepsAll(y, k);
    assert x + y == rest;
  }

  /** Moving the only block with id `k` to drop index `d`: the list keeps its length and
      its blocks, the block lands at `min(d, n - 1)`, and every other block keeps its
      relative order. */
  lemma MoveOnce(s: seq<Block>, k: int, p: nat, d: nat)
    requires OnlyAt(s, k, p)
    ensures Moved(s, k, d).Reordered?
    ensures var t := Moved(s, k, d).blocks;
      && |t| == |s|
      && multiset(t) == multiset(s)
      && t[Min(d, |s| - 1)] == s[p]
      && Without(t, k) == Without(s, k)
  {
    var rest := s[..p] + s[p + 1..];
    var m := Min(d, |rest|);
    var t := rest[..m] + [s[p]] + rest[m..];
    MovedShape(s, k, p, d);
    assert Moved(s, k, d).blocks == t;
    InsertFacts(rest, m, s[p]);
    SplitAt(s, p);
    OnlyAtRest(s, k, p);
    WithoutInsert(rest, m, s[p], k);
    WithoutOnly(s, k, p);
  }

  /** Taking out the block at `p` and adding it back gives the same multiset. */
  lemma SplitAt(s: seq<Block>, p: nat)
    requires p < |s|
    ensures multiset(s) == multiset(s[..p] + s[p + 1..]) + multiset{s[p]}
  {
    assert s == s[..p] + [s[p]] + s[p + 1..];
  }

  /** Without the only block with id `k`, no block carries `k`. */
  lemma OnlyAtRest(s: seq<Block>, k: int, p: nat)
    requires OnlyAt(s, k, p)
    ensures !HasId(s[..p] + s[p + 1..], k)
  {
    OnlyAtParts(s, k, p);
    forall x | x in s[..p] + s[p + 1..] ensures x.id != k {
      assert x in s[..p] || x in s[p + 1..];
    }
  }

  /** The list a move of the only block with id `k` builds. */
  lemma MovedShape(s: seq<Block>, k: int, p: nat, d: nat)
    requires OnlyAt(s, k, p)
    ensures var rest := s[..p] + s[p + 1..];
      Moved(s, k, d) == Reordered(rest[..Min(d, |rest|)] + [s[p]] + rest[Min(d, |rest|)..])
  {
    WithoutOnly(s, k, p);
    FindOnly(s, k, p);
  }

  /** Dropping a block onto the index it already occupies changes nothing. */
  lemma MoveToOwnPosition(s: seq<Block>, k: int, p: nat)
    requires OnlyAt(s, k, p)
    ensures Moved(s, k, p) == Reordered(s)
  {
    WithoutOnly(s, k, p);
    FindOnly(s, k, p);
    var rest := s[..p] + s[p + 1..];
    assert rest[..p] == s[..p];
    assert rest[p..] == s[p + 1..];
    assert s == s[..p] + [s[p]] + s[p + 1..];
  }

  /** Two blocks: dragging the first onto the second puts it after the second. */
  lemma SwapTwo(a: Block, b: Block)
    requires a.id != b.id
    ensures Moved([a, b], a.id, 1) == Reordered([b, a])
  {
    MovedShape([a, b], a.id, 0, 1);
    assert [a, b][1..] == [b];
  }

  /** Dragging an id that no block carries does not leave the list alone: the source
      splits the whole list at `min(d, n)` and puts `undefined` in between. */
  lemma MoveMissing(s: seq<Block>, k: int, d: nat)
    requires !HasId(s, k)
    ensures var o := Moved(s, k, d);
      o.UndefinedInserted? && o.before + o.after == s && |o.before| == Min(d, |s|)
  {
    WithoutKeepsAll(s, k);
  }

  /** Inserting a block whose id is new keeps ids unique. */
  lemma InsertUnique(rest: seq<Block>, m: nat, b: Block)
    requires m <= |rest| && UniqueIds(rest) && !HasId(rest, b.id)
    ensures UniqueIds(rest[..m] + [b] + rest[m..])
  {
    var t := rest[..m] + [b] + rest[m..];
    forall i, j | 0 <= i < j < |t| ensures t[i].id != t[j].id {
      if i == m {
        assert t[j] == rest[j - 1] && rest[j - 1] in rest;
      } else if j == m {
        assert t[i] == rest[i] && rest[i] in rest;
      } else {
        var i' := if i < m then i else i - 1;
        var j' := if j < m then j else j - 1;
        assert t[i] == rest[i'] && t[j] == rest[j'];
      }
    }
  }

  /** Moving the only block with id `k` keeps ids unique. */
  lemma MoveUnique(s: seq<Block>, k: int, p: nat, d: nat)
    requires UniqueIds(s) && OnlyAt(s, k, p)
    ensures Moved(s, k, d).Reordered? && UniqueIds(Moved(s, k, d).blocks)
  {
    FindOnly(s, k, p);
    WithoutUnique(s, k);
    var rest := Without(s, k);
    InsertUnique(rest, Min(d, |rest|), s[p]);
  }

  /** `{ ...comp, ...updates }`: the id and type stay, every key in `u` takes its new
      value, every other field keeps its old one. */
  function Merge(b: Block, u: Fields): (r: Block)
    ensures r.id == b.id && r.kind == b.kind
    ensures r.fields.Keys == b.fields.Keys + u.Keys
    ensures forall key :: key in u ==> r.fields[key] == u[key]
    ensures forall key :: key in b.fields && key !in u ==> r.fields[key] == b.fields[key]
  {
    b.(fields := b.fields + u)
  }

  /** `s.map(comp => comp.id === k ? { ...comp, ...u } : comp)`. */
  function Updated(s: seq<Block>, k: int, u: Fields): (r: seq<Block>)
    ensures |r| == |s|
    ensures forall i :: 0 <= i < |s| ==> r[i].id == s[i].id && r[i].kind == s[i].kind
    ensures forall i :: 0 <= i < |s| && s[i].id != k ==> r[i] == s[i]
    ensures forall i :: 0 <= i < |s| && s[i].id == k ==> r[i] == Merge(s[i], u)
  {
    if |s| == 0 then []
    else
      var tail := Updated(s[1..], k, u);
      var r := [if s[0].id == k then Merge(s[0], u) else s[0]] + tail;
      assert forall i :: 1 <= i < |s| ==> r[i] == tail[i - 1] && s[i] == s[1..][i - 1];
      r
  }
}
