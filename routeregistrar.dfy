/**
 * bootstrap/routeregistrar.go: the table from message id to handler. A
 * handler is represented by its answer to the request bytes (an error or
 * none); the request context it also receives is not modelled.
 */
module BootstrapRoutes {
  import opened Wrappers
  import opened GrpcStatus

  /** The error a handler returns: a status error or any other error with its text. */
  datatype HandlerError = StatusError(status: Status) | PlainError(text: string)

  type Handler = seq<bv8> -> Option<HandlerError>

  /** contract.RouteCell: a message id (an int32) and its handler. */
  datatype RouteCell = RouteCell(msgID: int, handleFunc: Handler)

  datatype RoutePanic = RouteAlreadyRegistered(msgID: int)

  /**
   * The routes after registering the cells front to back, stopping at the
   * first cell whose id is already there: the table at that point and the
   * panic.
   */
  function RegisterAll(routes: map<int, Handler>, cells: seq<RouteCell>): (map<int, Handler>, Option<RoutePanic>)
    decreases |cells|
  {
    if cells == [] then (routes, None)
    else if cells[0].msgID in routes then (routes, Some(RouteAlreadyRegistered(cells[0].msgID)))
    else RegisterAll(routes[cells[0].msgID := cells[0].handleFunc], cells[1..])
  }

  /** Whether the cells have pairwise different ids, none of them already in the table. */
  predicate Fresh(routes: map<int, Handler>, cells: seq<RouteCell>) {
    && (forall i :: 0 <= i < |cells| ==> cells[i].msgID !in routes)
    && (forall i, j :: 0 <= i < j < |cells| ==> cells[i].msgID != cells[j].msgID)
  }

  /**
   * Registering never overwrites or removes an entry; it panics exactly
   * when an id is taken or repeated; without a panic every cell's handler
   * is stored under its id, and no other id is added.
   */
  lemma {:induction false} RegisterAllSpec(routes: map<int, Handler>, cells: seq<RouteCell>)
    ensures var (r, p) := RegisterAll(routes, cells);
      && (forall k :: k in routes ==> k in r && r[k] == routes[k])
      && (forall k :: k in r ==> k in routes || exists i :: 0 <= i < |cells| && cells[i].msgID == k)
      && (p.None? <==> Fresh(routes, cells))
      && (p.None? ==> forall i :: 0 <= i < |cells| ==> cells[i].msgID in r && r[cells[i].msgID] == cells[i].handleFunc)
    decreases |cells|
  {
    if cells != [] && cells[0].msgID !in routes {
      var routes' := routes[cells[0].msgID := cells[0].handleFunc];
      var tail := cells[1..];
      RegisterAllSpec(routes', tail);
      assert forall i :: 1 <= i < |cells| ==> cells[i] == tail[i - 1];
      var (r, p) := RegisterAll(routes, cells);
      assert (r, p) == RegisterAll(routes', tail);
      forall k | k in r
        ensures k in routes || exists i :: 0 <= i < |cells| && cells[i].msgID == k
      {
        if k !in routes && k != cells[0].msgID {
          var i :| 0 <= i < |tail| && tail[i].msgID == k;
          assert cells[i + 1].msgID == k;
        }
      }
      if Fresh(routes, cells) {
        assert Fresh(routes', tail);
      }
      if Fresh(routes', tail) {
        forall i, j | 0 <= i < j < |cells|
          ensures cells[i].msgID != cells[j].msgID
        {
          if i > 0 {
            assert tail[i - 1] == cells[i] && tail[j - 1] == cells[j];
          }
        }
      }
    }
  }

  /**
   * When a later cell panics, every cell before it stays registered: the
   * table is the one the prefix alone builds.
   */
  lemma {:induction false} PanicKeepsPrefix(routes: map<int, Handler>, cells: seq<RouteCell>)
    ensures RegisterAll(routes, cells).1.Some? ==>
      exists k :: (0 <= k < |cells| && cells[k].msgID == RegisterAll(routes, cells).1.value.msgID &&
                   RegisterAll(routes, cells).0 == RegisterAll(routes, cells[..k]).0 && Fresh(routes, cells[..k]) &&
                   cells[k].msgID in RegisterAll(routes, cells).0)
    decreases |cells|
  {
    if cells != [] {
      if cells[0].msgID in routes {
        assert cells[..0] == [];
      } else {
        var routes' := routes[cells[0].msgID := cells[0].handleFunc];
        var tail := cells[1..];
        PanicKeepsPrefix(routes', tail);
        if RegisterAll(routes, cells).1.Some? {
          var k :| (0 <= k < |tail| && tail[k].msgID == RegisterAll(routes', tail).1.value.msgID &&
                    RegisterAll(routes', tail).0 == RegisterAll(routes', tail[..k]).0 && Fresh(routes', tail[..k]) &&
                    tail[k].msgID in RegisterAll(routes', tail).0);
          assert cells[..k + 1][1..] == tail[..k];
          assert cells[..k + 1][0] == cells[0];
          var pre := cells[..k + 1];
          forall i, j | 0 <= i < j < |pre|
            ensures pre[i].msgID != pre[j].msgID
          {
            assert pre[j] == tail[..k][j - 1];
            if i > 0 {
              assert pre[i] == tail[..k][i - 1];
            }
          }
          forall i | 0 <= i < |pre|
            ensures pre[i].msgID !in routes
          {
            if i > 0 {
              assert pre[i] == tail[..k][i - 1];
            }
          }
          assert cells[k + 1] == tail[k];
        }
      }
    }
  }

  class RouteRegistrar {
    var routes: map<int, Handler>

    /** NewRouteRegistrar: an empty table. */
    constructor ()
      ensures routes == map[]
    {
      routes := map[];
    }

    /** RegisterRoute: the cells in order, panicking at the first id already registered. */
    method RegisterRoute(cells: seq<RouteCell>) returns (p: Option<RoutePanic>)
      modifies this
      ensures (routes, p) == RegisterAll(old(routes), cells)
    {
      var i := 0;
      while i < |cells|
        invariant 0 <= i <= |cells|
        invariant RegisterAll(routes, cells[i..]) == RegisterAll(old(routes), cells)
      {
        assert cells[i..][1..] == cells[i + 1..];
        if cells[i].msgID in routes {
          return Some(RouteAlreadyRegistered(cells[i].msgID));
        }
        routes := routes[cells[i].msgID := cells[i].handleFunc];
        i := i + 1;
      }
      return None;
    }
  }
}
