/** The route set-up of the REST server: maps from 1-based indices to routes and callbacks, checked by
    asserts while the routes are registered. */
module Routes {

  datatype Verb = Get | Post | Delete

  /** One registration with the router. */
  datatype Entry = Entry(verb: Verb, path: string, cb: int)

  const DYNAMIC_ID := "/:Id"

  predicate Known(m: string) { m == "get" || m == "post" || m == "del" }

  function VerbOf(m: string): Verb
    requires Known(m)
  {
    if m == "get" then Get else if m == "post" then Post else Delete
  }

  /** The 1-based indices that are flagged among the first `n`. */
  function Flagged(flags: seq<bool>, n: nat): (s: set<int>)
    requires n <= |flags|
    ensures forall i :: i in s <==> 1 <= i <= n && flags[i - 1]
  {
    if n == 0 then {} else if flags[n - 1] then Flagged(flags, n - 1) + {n} else Flagged(flags, n - 1)
  }

  lemma FlaggedNext(flags: seq<bool>, n: nat)
    requires 0 < n <= |flags|
    ensures |Flagged(flags, n)| == |Flagged(flags, n - 1)| + if flags[n - 1] then 1 else 0
  {
  }

  lemma FlaggedNone(flags: seq<bool>)
    ensures |Flagged(flags, 0)| == 0
  {
  }

  /** Enough of the right members make a set the right one. */
  lemma SameSize(keys: set<int>, s: set<int>)
    requires s <= keys && |keys| == |s|
    ensures keys == s
  {
    assert |keys - s| == |keys| - |s|;
  }

  class Server {
    const methods: seq<string>
    const staticRouting: seq<bool>
    const dynamicRouting: seq<bool>
    const statSz: nat
    const dynSz: nat
    var routeStatic: map<int, string>
    var routeDynamic: map<int, string>
    var cbStatic: map<int, int>
    var cbDynamic: map<int, int>
    var base: string
    var router: seq<Entry>

    ghost predicate Valid() {
      && |staticRouting| == |methods| == |dynamicRouting|
      && statSz == |Flagged(staticRouting, |staticRouting|)| && dynSz == |Flagged(dynamicRouting, |dynamicRouting|)|
    }

    constructor (m: seq<string>, stat: seq<bool>, dyn: seq<bool>)
      requires |stat| == |m| == |dyn|
      ensures Valid() && methods == m && staticRouting == stat && dynamicRouting == dyn
      ensures routeStatic == map[] == routeDynamic && cbStatic == map[] == cbDynamic && router == []
      ensures base == "/ric/v1"
    {
      methods, staticRouting, dynamicRouting := m, stat, dyn;
      routeStatic, routeDynamic, cbStatic, cbDynamic, base, router := map[], map[], map[], map[], "/ric/v1", [];
      var s := CalSize(stat);
      var d := CalSize(dyn);
      statSz, dynSz := s, d;
    }

    /** cal_stat_size and cal_dyn_size. */
    static method CalSize(flags: seq<bool>) returns (size: nat)
      ensures size == |Flagged(flags, |flags|)|
    {
      size := 0;
      for i := 0 to |flags|
        invariant size == |Flagged(flags, i)|
      {
        if flags[i] {
          size := size + 1;
        }
      }
    }

    method SetupStaticRoute(route: map<int, string>)
      modifies this`routeStatic
      ensures routeStatic == route
    {
      routeStatic := route;
    }

    method SetupDynamicRoute(route: map<int, string>)
      modifies this`routeDynamic
      ensures routeDynamic == route
    {
      routeDynamic := route;
    }

    method AddStaticCb(cb: map<int, int>)
      modifies this`cbStatic
      ensures cbStatic == cb
    {
      cbStatic := cb;
    }

    method AddDynamicCb(cb: map<int, int>)
      modifies this`cbDynamic
      ensures cbDynamic == cb
    {
      cbDynamic := cb;
    }

    /** The asserts of setupRoutes_get, _post and _del for an index. */
    predicate Ready(index: int)
      requires 1 <= index <= |staticRouting| == |dynamicRouting|
      reads this`routeStatic, this`routeDynamic, this`cbStatic, this`cbDynamic
    {
      && (index in routeStatic || index in routeDynamic)
      && (staticRouting[index - 1] ==> index in routeStatic && index in cbStatic)
      && (dynamicRouting[index - 1] ==> index in routeDynamic && index in cbDynamic)
    }

    /** The asserts that init meets at an index: none if the method is not a known one. */
    predicate Fine(index: int)
      requires 1 <= index <= |methods| == |staticRouting| == |dynamicRouting|
      reads this`routeStatic, this`routeDynamic, this`cbStatic, this`cbDynamic
    {
      Known(methods[index - 1]) ==> Ready(index)
    }

    /** What is registered for an index: its static route, then its dynamic one; nothing for a method
        that is not a known one. */
    function EntriesOf(index: int): seq<Entry>
      requires 1 <= index <= |methods| == |staticRouting| == |dynamicRouting| && Fine(index)
      reads this`routeStatic, this`routeDynamic, this`cbStatic, this`cbDynamic, this`base
    {
      if !Known(methods[index - 1]) then []
      else
        var verb := VerbOf(methods[index - 1]);
        (if staticRouting[index - 1] then [Entry(verb, base + routeStatic[index], cbStatic[index])] else [])
        + (if dynamicRouting[index - 1] then [Entry(verb, base + routeDynamic[index] + DYNAMIC_ID, cbDynamic[index])]
           else [])
    }

    /** setupRoutes_get, _post and _del. A false result is a failed assert. */
    method SetupRoutes(verb: Verb, index: int) returns (ok: bool)
      requires 1 <= index <= |methods| == |staticRouting| == |dynamicRouting|
      requires Known(methods[index - 1]) && verb == VerbOf(methods[index - 1])
      modifies this`router
      ensures ok == Ready(index)
      ensures ok ==> router == old(router) + EntriesOf(index)
    {
      if index !in routeStatic && index !in routeDynamic {
        return false;
      }
      if staticRouting[index - 1] {
        if index !in routeStatic || index !in cbStatic {
          return false;
        }
        router := router + [Entry(verb, base + routeStatic[index], cbStatic[index])];
      }
      if dynamicRouting[index - 1] {
        if index !in routeDynamic || index !in cbDynamic {
          return false;
        }
        router := router + [Entry(verb, base + routeDynamic[index] + DYNAMIC_ID, cbDynamic[index])];
      }
      ok := true;
    }

    predicate AllKnown()
    {
      forall k :: 0 <= k < |methods| ==> Known(methods[k])
    }

    /** The keys of the maps are just the flagged indices, and every index is flagged. */
    predicate Exact()
      reads this`routeStatic, this`routeDynamic, this`cbStatic, this`cbDynamic
    {
      && |staticRouting| == |methods| == |dynamicRouting|
      && routeStatic.Keys == Flagged(staticRouting, |staticRouting|) == cbStatic.Keys
      && routeDynamic.Keys == Flagged(dynamicRouting, |dynamicRouting|) == cbDynamic.Keys
      && forall k :: 0 <= k < |methods| ==> staticRouting[k] || dynamicRouting[k]
    }

    /** The two asserts on sizes. */
    predicate Sized()
      reads this`routeStatic, this`routeDynamic, this`cbStatic, this`cbDynamic
    {
      |routeStatic| == statSz == |cbStatic| && |routeDynamic| == dynSz == |cbDynamic|
    }

    /** Everything registered for the first `n` indices, in their order. */
    function Entries(n: nat): seq<Entry>
      requires n <= |methods| == |staticRouting| == |dynamicRouting|
      requires forall i :: 1 <= i <= n ==> Fine(i)
      reads this`routeStatic, this`routeDynamic, this`cbStatic, this`cbDynamic, this`base
    {
      if n == 0 then [] else Entries(n - 1) + EntriesOf(n)
    }

    /** init passes every assert if and only if the sizes are right and each index with a known method
        has what its flags need; and then just these are registered, in their order. When all methods are
        known, that is if and only if the maps have just the flagged indices for keys and every index is
        flagged. */
    method Init() returns (ok: bool)
      requires Valid()
      modifies this`router
      ensures ok <==> Sized() && forall i :: 1 <= i <= |methods| ==> Fine(i)
      ensures AllKnown() ==> (ok <==> Exact())
      ensures ok ==> router == old(router) + Entries(|methods|)
    {
      hide Ready, EntriesOf, Exact, Known;
      ghost var all := AllKnown();
      if all {
        ExactExactly();
      }
      if |routeStatic| != statSz || |routeDynamic| != dynSz {
        return false;
      }
      if |cbStatic| != statSz || |cbDynamic| != dynSz {
        return false;
      }
      for i := 0 to |methods|
        invariant forall j :: 1 <= j <= i ==> Fine(j)
        invariant router == old(router) + Entries(i)
      {
        if Known(methods[i]) {
          ok := SetupRoutes(VerbOf(methods[i]), i + 1);
          if !ok {
            assert !Fine(i + 1);
            if all {
              ExactExactly();
            }
            return;
          }
        } else {
          NoEntries(i + 1);
        }
      }
      if all {
        ExactExactly();
      }
      ok := true;
    }

    /** The registrations of an index: with the verb its method names, the path under the base, and the
        callback of the same kind; the dynamic path has a parameter at its end. */
    lemma EntriesSay(index: int, verb: Verb)
      requires Valid() && 1 <= index <= |methods| && Fine(index)
      requires var m := methods[index - 1];
        (m == "get" && verb == Get) || (m == "post" && verb == Post) || (m == "del" && verb == Delete)
      ensures var es := EntriesOf(index);
        && |es| == (if staticRouting[index - 1] then 1 else 0) + (if dynamicRouting[index - 1] then 1 else 0)
        && (staticRouting[index - 1] ==>
          && index in routeStatic && index in cbStatic
          && es[0] == Entry(verb, base + routeStatic[index], cbStatic[index]))
        && (dynamicRouting[index - 1] ==>
          && index in routeDynamic && index in cbDynamic
          && es[|es| - 1] == Entry(verb, base + routeDynamic[index] + "/:Id", cbDynamic[index]))
    {
    }

    lemma OtherMethod(index: int)
      requires Valid() && 1 <= index <= |methods|
      requires methods[index - 1] != "get" && methods[index - 1] != "post" && methods[index - 1] != "del"
      ensures Fine(index) && EntriesOf(index) == []
    {
    }

    lemma NoEntries(index: int)
      requires 1 <= index <= |methods| == |staticRouting| == |dynamicRouting| && !Known(methods[index - 1])
      ensures Fine(index) && EntriesOf(index) == []
    {
    }

    /** Equal counts and membership leave no room for other keys. */
    lemma ExactExactly()
      requires Valid() && AllKnown()
      ensures Exact() <==> Sized() && forall i :: 1 <= i <= |methods| ==> Fine(i)
    {
      hide Ready, Exact;
      if Exact() {
        ExactSizes();
        forall i | 1 <= i <= |methods| ensures Fine(i) {
          ExactReady(i);
        }
      }
      if Sized() && forall i :: 1 <= i <= |methods| ==> Fine(i) {
        forall i | 1 <= i <= |methods| ensures Ready(i) {
          assert Fine(i);
        }
        ReadyExact();
      }
    }

    lemma ExactSizes()
      requires Valid()
      ensures Exact() ==> |routeStatic| == statSz == |cbStatic| && |routeDynamic| == dynSz == |cbDynamic|
    {
      assert |routeStatic.Keys| == |routeStatic| && |routeDynamic.Keys| == |routeDynamic|;
      assert |cbStatic.Keys| == |cbStatic| && |cbDynamic.Keys| == |cbDynamic|;
    }

    lemma ExactReady(index: int)
      requires Exact() && 1 <= index <= |methods|
      ensures Ready(index)
    {
      assert staticRouting[index - 1] || dynamicRouting[index - 1];
    }

    lemma ReadyExact()
      requires Valid() && forall i :: 1 <= i <= |methods| ==> Ready(i)
      requires |routeStatic| == statSz == |cbStatic| && |routeDynamic| == dynSz == |cbDynamic|
      ensures Exact()
    {
      var n := |methods|;
      forall i | i in Flagged(staticRouting, n) ensures i in routeStatic && i in cbStatic {
        assert Ready(i);
      }
      forall i | i in Flagged(dynamicRouting, n) ensures i in routeDynamic && i in cbDynamic {
        assert Ready(i);
      }
      SameSize(routeStatic.Keys, Flagged(staticRouting, n));
      SameSize(cbStatic.Keys, Flagged(staticRouting, n));
      SameSize(routeDynamic.Keys, Flagged(dynamicRouting, n));
      SameSize(cbDynamic.Keys, Flagged(dynamicRouting, n));
      forall k | 0 <= k < n ensures staticRouting[k] || dynamicRouting[k] {
        assert Ready(k + 1);
        assert k + 1 in routeStatic.Keys || k + 1 in routeDynamic.Keys;
      }
    }

    /** Where the registrations of an index are, among those of the first `n`. */
    lemma {:induction false} EntriesAt(n: nat, i: int)
      requires Valid() && 1 <= i <= n <= |methods| && forall j :: 1 <= j <= n ==> Fine(j)
      ensures |Entries(i - 1)| + |EntriesOf(i)| == |Entries(i)| <= |Entries(n)|
      ensures Entries(n)[|Entries(i - 1)|..|Entries(i)|] == EntriesOf(i)
    {
      hide EntriesOf, Fine;
      if i < n {
        EntriesAt(n - 1, i);
      }
    }

    /** The flags that count: those of known methods. */
    function Used(flags: seq<bool>): (used: seq<bool>)
      requires |flags| == |methods|
      ensures |used| == |methods| && forall k :: 0 <= k < |used| ==> used[k] == (flags[k] && Known(methods[k]))
    {
      seq(|flags|, k requires 0 <= k < |flags| => flags[k] && Known(methods[k]))
    }

    /** There is one registration for each flag of a known method, and no other. */
    lemma {:induction false} EntriesCount(n: nat)
      requires Valid() && n <= |methods| && forall j :: 1 <= j <= n ==> Fine(j)
      ensures |Entries(n)| == |Flagged(Used(staticRouting), n)| + |Flagged(Used(dynamicRouting), n)|
    {
      hide Fine, Known, EntriesOf, Flagged, Used;
      if n > 0 {
        EntriesCount(n - 1);
        EntriesLength(n);
        FlaggedNext(Used(staticRouting), n);
        FlaggedNext(Used(dynamicRouting), n);
      } else {
        FlaggedNone(Used(staticRouting));
        FlaggedNone(Used(dynamicRouting));
      }
    }

    lemma EntriesLength(i: int)
      requires Valid() && 1 <= i <= |methods| && Fine(i)
      ensures |EntriesOf(i)| ==
        (if Used(staticRouting)[i - 1] then 1 else 0) + (if Used(dynamicRouting)[i - 1] then 1 else 0)
    {
      hide Ready, Known;
    }
  }

  /** A server with one static route for posts and one dynamic route for deletions, from its set-up to what
      is registered. */
  method TwoRoutes(posts: string, post: int, dels: string, del: int) returns (server: Server, ok: bool)
    ensures fresh(server) && ok
    ensures server.router == [Entry(Post, "/ric/v1" + posts, post), Entry(Delete, "/ric/v1" + dels + "/:Id", del)]
  {
    hide Server.Exact, Server.Entries, Flagged, Known, Server.AllKnown, Server.Sized, Server.Ready, Server.EntriesOf;
    server := new Server(["post", "del"], [true, false], [false, true]);
    server.SetupStaticRoute(map[1 := posts]);
    server.SetupDynamicRoute(map[2 := dels]);
    server.AddStaticCb(map[1 := post]);
    server.AddDynamicCb(map[2 := del]);
    TwoExact(server);
    ok := server.Init();
    TwoEntries(server);
  }

  lemma TwoExact(server: Server)
    requires server.Valid() && server.methods == ["post", "del"]
    requires server.staticRouting == [true, false] && server.dynamicRouting == [false, true]
    requires server.routeStatic.Keys == {1} == server.cbStatic.Keys
    requires server.routeDynamic.Keys == {2} == server.cbDynamic.Keys
    ensures server.AllKnown() && server.Exact()
  {
    assert Flagged([true, false], 2) == {1} && Flagged([false, true], 2) == {2};
  }

  lemma TwoEntries(server: Server)
    requires server.Valid() && server.methods == ["post", "del"] && server.Fine(1) && server.Fine(2)
    requires server.staticRouting == [true, false] && server.dynamicRouting == [false, true]
    ensures 1 in server.routeStatic && 1 in server.cbStatic && 2 in server.routeDynamic && 2 in server.cbDynamic
    ensures server.Entries(2) == [
      Entry(Post, server.base + server.routeStatic[1], server.cbStatic[1]),
      Entry(Delete, server.base + server.routeDynamic[2] + "/:Id", server.cbDynamic[2])]
  {
    hide Server.Fine, Server.EntriesOf;
    server.EntriesSay(1, Post);
    server.EntriesSay(2, Delete);
    assert server.Entries(0) == [];
    assert server.Entries(1) == server.Entries(0) + server.EntriesOf(1);
    assert server.Entries(2) == server.Entries(1) + server.EntriesOf(2);
  }
}
