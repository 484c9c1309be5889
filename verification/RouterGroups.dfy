/** The group tree of web/engine/router_group.go and the chain that web/engine/router.go
    assembles from it for a request. */
module RouterGroups {
  import opened Middleware
  import opened MiddlewareStory

  class RouterGroup {
    const prefix: string
    const parent: RouterGroup?
    var middlewares: seq<Handler>

    constructor (prefix: string, parent: RouterGroup?)
      ensures this.prefix == prefix && this.parent == parent && middlewares == []
    {
      this.prefix, this.parent, middlewares := prefix, parent, [];
    }
  }

  /** The middlewares of the groups whose prefix the path has, in order of creation. */
  function Included(groups: seq<RouterGroup>, path: string): seq<Handler>
    reads groups
  {
    if groups == [] then []
    else
      Included(groups[..|groups| - 1], path) +
      (var g := groups[|groups| - 1]; if g.prefix <= path then g.middlewares else [])
  }

  /** A stretch of the chain that is the group's: its middlewares if the path has its
      prefix, and nothing otherwise. */
  ghost predicate Piece(chain: seq<Handler>, g: RouterGroup, path: string, from: nat, to: nat)
    reads g
  {
    && from <= to <= |chain|
    && (if HasPrefix(path, g.prefix) then chain[from..to] == g.middlewares else from == to)
  }

  /** A chain cut into one piece per group, in order. */
  ghost predicate Tiles(chain: seq<Handler>, groups: seq<RouterGroup>, path: string, cuts: seq<nat>)
    reads groups
  {
    && |cuts| == |groups| + 1 && cuts[0] == 0 && cuts[|groups|] == |chain|
    && forall i :: 0 <= i < |groups| ==> Piece(chain, groups[i], path, cuts[i], cuts[i + 1])
  }

  /** strings.HasPrefix */
  predicate HasPrefix(s: string, prefix: string) {
    |prefix| <= |s| && forall k :: 0 <= k < |prefix| ==> prefix[k] == s[k]
  }

  class Engine {
    var groups: seq<RouterGroup>

    /** The first group is the root; every other one was created from an earlier one,
        whose prefix its own extends. */
    ghost predicate Valid()
      reads this
    {
      && groups != [] && groups[0].parent == null && groups[0].prefix == ""
      && forall i :: 0 < i < |groups| ==>
           exists j :: 0 <= j < i && groups[i].parent == groups[j] && groups[j].prefix <= groups[i].prefix
    }

    constructor ()
      ensures Valid() && |groups| == 1 && groups[0].middlewares == []
    {
      var root := new RouterGroup("", null);
      groups := [root];
    }

    /** RouterGroup.Group */
    method Group(parent: RouterGroup, prefix: string) returns (g: RouterGroup)
      requires Valid() && parent in groups
      modifies this
      ensures Valid() && fresh(g) && groups == old(groups) + [g]
      ensures g.parent == parent && g.prefix == parent.prefix + prefix && g.middlewares == []
    {
      ghost var j :| 0 <= j < |groups| && groups[j] == parent;
      ghost var before := groups;
      g := new RouterGroup(parent.prefix + prefix, parent);
      groups := groups + [g];
      forall i | 0 < i < |groups|
        ensures exists j :: 0 <= j < i && groups[i].parent == groups[j] && groups[j].prefix <= groups[i].prefix
      {
        if i < |before| {
          var k :| 0 <= k < i && before[i].parent == before[k] && before[k].prefix <= before[i].prefix;
          assert groups[k] == before[k];
        } else {
          assert groups[j] == parent;
        }
      }
    }

    /** RouterGroup.Use */
    method Use(g: RouterGroup, more: seq<Handler>)
      requires Valid() && g in groups
      modifies g
      ensures Valid() && g.middlewares == old(g.middlewares) + more
    {
      g.middlewares := g.middlewares + more;
    }

    /** The handlers of a request: the loop over groups, then the route's own handler. */
    method Assemble(path: string, handler: Handler) returns (c: Context)
      requires Valid()
      ensures fresh(c) && c.handlers == Included(groups, path) + [handler]
      ensures exists chain, cuts :: c.handlers == chain + [handler] && Tiles(chain, groups, path, cuts)
      ensures c.index == -1 && c.trace == []
    {
      var chain := [];
      for i := 0 to |groups|
        invariant chain == Included(groups[..i], path)
      {
        assert groups[..i + 1][..i] == groups[..i];
        if groups[i].prefix <= path {
          chain := chain + groups[i].middlewares;
        }
      }
      assert groups[..|groups|] == groups;
      c := new Context(chain + [handler]);
      ghost var cuts := IncludedTiles(groups, path);
      assert c.handlers == chain + [handler] && Tiles(chain, groups, path, cuts);
    }

    /** The function that `add` registers: assemble the chain and run it. What happens is
        the story of the included middlewares and the handler, and without panics the onion
        of the middlewares around the handler. */
    method Serve(path: string, handler: Handler) returns (trace: seq<Event>, panicked: bool)
      requires Valid()
      ensures trace == Story(Included(groups, path) + [handler], 0)
      ensures panicked <==> Escapes(Included(groups, path) + [handler], 0)
      ensures (forall g :: g in groups && HasPrefix(path, g.prefix) ==> g.middlewares == []) ==>
                trace == Story([handler], 0)
      ensures NoPanics(Included(groups, path) + [handler]) ==>
                !panicked && trace == Onion(Included(groups, path) + [handler], 0)
    {
      var c := Assemble(path, handler);
      panicked := c.Next();
      trace := c.trace;
      ghost var hs := Included(groups, path) + [handler];
      assert [] + Chain(hs, 0).events == Chain(hs, 0).events;
      ChainIsStory(hs, 0);
      PanicsIff(hs, 0);
      if forall g :: g in groups && HasPrefix(path, g.prefix) ==> g.middlewares == [] {
        NoneIncluded(groups, path);
        assert hs == [handler];
      }
      if NoPanics(hs) {
        ChainIsOnion(hs, 0);
      }
    }

    /** Group j is group i or one of the groups that i was created under. */
    ghost predicate Ancestor(j: nat, i: nat)
      requires Valid() && j < |groups| && i < |groups|
      reads this
      decreases i
    {
      j == i || (i > 0 && exists k :: 0 <= k < i && groups[i].parent == groups[k] && Ancestor(j, k))
    }

    /** A group that a request includes has all its ancestors included, before it. */
    lemma {:induction false} AncestorsIncluded(j: nat, i: nat, path: string)
      requires Valid() && j < |groups| && i < |groups| && Ancestor(j, i) && groups[i].prefix <= path
      ensures j <= i && groups[j].prefix <= groups[i].prefix && groups[j].prefix <= path
      decreases i
    {
      if j != i {
        var k :| 0 <= k < i && groups[i].parent == groups[k] && Ancestor(j, k);
        var m :| 0 <= m < i && groups[i].parent == groups[m] && groups[m].prefix <= groups[i].prefix;
        AncestorsIncluded(j, k, path);
      }
    }

    /** So in the chain an ancestor's middlewares come, as a block, before the group's. */
    lemma ChainOrder(j: nat, i: nat, path: string) returns (a: seq<Handler>, b: seq<Handler>, c: seq<Handler>)
      requires Valid() && j < i < |groups| && Ancestor(j, i) && groups[i].prefix <= path
      ensures Included(groups, path) == a + groups[j].middlewares + b + groups[i].middlewares + c
      ensures a == Included(groups[..j], path) && b == Included(groups[j + 1..i], path)
    {
      AncestorsIncluded(j, i, path);
      c := TwoBlocks(groups, j, i, path);
      a, b := Included(groups[..j], path), Included(groups[j + 1..i], path);
    }
  }

  lemma TwoBlocks(groups: seq<RouterGroup>, j: nat, i: nat, path: string) returns (c: seq<Handler>)
    requires j < i < |groups| && groups[j].prefix <= path && groups[i].prefix <= path
    ensures Included(groups, path) == Included(groups[..j], path) + groups[j].middlewares
              + Included(groups[j + 1..i], path) + groups[i].middlewares + c
  {
    IncludedSplit(groups, j, path);
    var rest, n := groups[j + 1..], i - j - 1;
    IncludedSplit(rest, n, path);
    assert rest[n] == groups[i] && rest[..n] == groups[j + 1..i];
    c := Included(rest[n + 1..], path);
    Regroup(Included(groups[..j], path) + groups[j].middlewares, Included(groups[j + 1..i], path),
            groups[i].middlewares, c);
  }

  lemma Regroup(a: seq<Handler>, b: seq<Handler>, g: seq<Handler>, c: seq<Handler>)
    ensures a + (b + g + c) == a + b + g + c
  {
  }

  lemma {:induction false} IncludedConcat(a: seq<RouterGroup>, b: seq<RouterGroup>, path: string)
    ensures Included(a + b, path) == Included(a, path) + Included(b, path)
  {
    if b == [] {
      assert a + b == a;
    } else {
      assert (a + b)[..|a + b| - 1] == a + b[..|b| - 1];
      IncludedConcat(a, b[..|b| - 1], path);
    }
  }

  /** The chain around any one group: its middlewares if the path has its prefix, nothing
      otherwise. */
  lemma IncludedSplit(groups: seq<RouterGroup>, i: nat, path: string)
    requires i < |groups|
    ensures Included([], path) == []
    ensures Included(groups, path) ==
            Included(groups[..i], path) + (if groups[i].prefix <= path then groups[i].middlewares else [])
            + Included(groups[i + 1..], path)
  {
    var g := [groups[i]];
    assert groups == groups[..i] + g + groups[i + 1..];
    IncludedConcat(groups[..i] + g, groups[i + 1..], path);
    IncludedConcat(groups[..i], g, path);
    assert g[..0] == [];
    assert Included(g, path) == [] + if groups[i].prefix <= path then groups[i].middlewares else [];
  }

  lemma PrefixIff(s: string, prefix: string)
    ensures HasPrefix(s, prefix) <==> prefix <= s
  {
    if HasPrefix(s, prefix) {
      assert prefix == s[..|prefix|];
    }
  }

  lemma TilesOneMore(chain: seq<Handler>, groups: seq<RouterGroup>, g: RouterGroup, path: string, cuts: seq<nat>)
    requires Tiles(chain, groups, path, cuts)
    ensures var piece := if HasPrefix(path, g.prefix) then g.middlewares else [];
            Tiles(chain + piece, groups + [g], path, cuts + [|chain + piece|])
  {
    var piece := if HasPrefix(path, g.prefix) then g.middlewares else [];
    var chain', groups', cuts' := chain + piece, groups + [g], cuts + [|chain + piece|];
    forall i | 0 <= i < |groups'| ensures Piece(chain', groups'[i], path, cuts'[i], cuts'[i + 1]) {
      if i < |groups| {
        assert Piece(chain, groups[i], path, cuts[i], cuts[i + 1]);
        assert chain'[cuts[i]..cuts[i + 1]] == chain[cuts[i]..cuts[i + 1]];
      } else {
        assert chain'[|chain|..] == piece;
      }
    }
  }

  /** The assembled chain consists of exactly the pieces of the groups that match. */
  lemma {:induction false} IncludedTiles(groups: seq<RouterGroup>, path: string) returns (cuts: seq<nat>)
    ensures Tiles(Included(groups, path), groups, path, cuts)
  {
    if groups == [] {
      cuts := [0];
    } else {
      var front, g := groups[..|groups| - 1], groups[|groups| - 1];
      var before := IncludedTiles(front, path);
      TilesOneMore(Included(front, path), front, g, path, before);
      PrefixIff(path, g.prefix);
      cuts := before + [|Included(groups, path)|];
      assert front + [g] == groups;
    }
  }

  lemma {:induction false} NoneIncluded(groups: seq<RouterGroup>, path: string)
    requires forall g :: g in groups && HasPrefix(path, g.prefix) ==> g.middlewares == []
    ensures Included(groups, path) == []
  {
    if groups != [] {
      PrefixIff(path, groups[|groups| - 1].prefix);
      NoneIncluded(groups[..|groups| - 1], path);
    }
  }
}
