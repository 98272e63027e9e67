/**
 * Event<D> of Event.h: a list of listener connections with deferred removal.
 * Closing a connection while the event is notifying only flags it; the flagged
 * entries are removed once the notification round is over, and listeners
 * added during a round are not called in that round.
 */
module Events {
  import opened Wrappers

  /** The handle OpenConnection gives out; only its identity matters here. */
  class Connection {
    constructor()
    {
    }
  }

  /** Event::ConnectionDesc. */
  datatype ConnectionDesc<D> = ConnectionDesc(delegate: D, connection: Connection, isOpen: bool)

  /**
   * What a delegate does to the event it is called from: open a new
   * connection, or close one.
   */
  datatype Reaction<D> = OpenListener(delegate: D) | CloseListener(connection: Connection)

  /** The index of the first entry of `conns` from `i` on that holds connection `c`. */
  function FindFrom<D>(conns: seq<ConnectionDesc<D>>, c: Connection, i: nat): (r: Option<nat>)
    requires i <= |conns|
    ensures r.Some? ==> i <= r.value < |conns| && conns[r.value].connection == c
    ensures r.Some? ==> forall j :: i <= j < r.value ==> conns[j].connection != c
    ensures r.None? ==> forall j :: i <= j < |conns| ==> conns[j].connection != c
    decreases |conns| - i
  {
    if i == |conns| then None
    else if conns[i].connection == c then Some(i)
    else FindFrom(conns, c, i + 1)
  }

  /** The open entries of `conns`, in their order. */
  function OpenOnly<D>(conns: seq<ConnectionDesc<D>>): (r: seq<ConnectionDesc<D>>)
    ensures |r| <= |conns|
    ensures forall k :: 0 <= k < |r| ==> r[k].isOpen && r[k] in conns
  {
    if conns == [] then []
    else OpenOnly(conns[..|conns| - 1]) + (if conns[|conns| - 1].isOpen then [conns[|conns| - 1]] else [])
  }

  /** The indices `j` with `flags[j]`, in increasing order. */
  function TrueIndices(flags: seq<bool>): (r: seq<nat>)
    ensures forall k :: 0 <= k < |r| ==> r[k] < |flags| && flags[r[k]]
    ensures forall k, l :: 0 <= k < l < |r| ==> r[k] < r[l]
    ensures forall j :: 0 <= j < |flags| && flags[j] ==> j in r
  {
    if flags == [] then []
    else
      var n := |flags| - 1;
      var prefix := TrueIndices(flags[..n]);
      assert forall k :: 0 <= k < |prefix| ==> prefix[k] < n;
      prefix + (if flags[n] then [n] else [])
  }

  /** Appending a flag appends its index when it is set. */
  lemma TrueIndicesSnoc(flags: seq<bool>, b: bool)
    ensures TrueIndices(flags + [b]) == TrueIndices(flags) + (if b then [|flags|] else [])
  {
    assert (flags + [b])[..|flags|] == flags;
  }

  /** Open entries keep their order and closed ones disappear: `OpenOnly` keeps exactly the open entries. */
  lemma {:induction false} OpenOnlyKeepsOpen<D>(conns: seq<ConnectionDesc<D>>)
    ensures forall d :: d in conns && d.isOpen ==> d in OpenOnly(conns)
    ensures OpenOnly(conns) == conns <==> forall j :: 0 <= j < |conns| ==> conns[j].isOpen
  {
    if conns != [] {
      var n := |conns| - 1;
      OpenOnlyKeepsOpen(conns[..n]);
      assert conns == conns[..n] + [conns[n]];
      if OpenOnly(conns) == conns {
        assert |OpenOnly(conns[..n])| <= n;
      }
    }
  }

  /** The notifying branch of CloseConnection: the first entry for `c` is flagged closed. */
  function CloseFlag<D>(conns: seq<ConnectionDesc<D>>, c: Connection): (r: seq<ConnectionDesc<D>>)
    ensures |r| == |conns|
    ensures forall j :: 0 <= j < |conns| ==>
      && r[j].delegate == conns[j].delegate && r[j].connection == conns[j].connection
      && (r[j].isOpen <==> conns[j].isOpen && (conns[j].connection != c || exists k :: 0 <= k < j && conns[k].connection == c))
  {
    match FindFrom(conns, c, 0)
    case None => conns
    case Some(i) => conns[i := conns[i].(isOpen := false)]
  }

  /**
   * The list after the reactions `rs` of a delegate called during a round,
   * applied in order; `handles[k]` is the connection the k-th reaction opens
   * when it opens one.
   */
  function Apply<D>(conns: seq<ConnectionDesc<D>>, rs: seq<Reaction<D>>, handles: seq<Connection>): seq<ConnectionDesc<D>>
    requires |handles| == |rs|
  {
    if rs == [] then conns
    else
      var n := |rs| - 1;
      var prev := Apply(conns, rs[..n], handles[..n]);
      match rs[n]
      case OpenListener(d) => prev + [ConnectionDesc(d, handles[n], true)]
      case CloseListener(c) => CloseFlag(prev, c)
  }

  /**
   * One step of a notification round over `n` entries, at entry `j`: the
   * list is `before` when the entry is reached and `open` is whether the
   * entry is open then; an open entry's delegate is called and `after` is
   * the list after its reactions, which open the connections `h`; a closed
   * entry is skipped and changes nothing.
   */
  ghost predicate Step<D>(react: D -> seq<Reaction<D>>, n: nat, j: nat, before: seq<ConnectionDesc<D>>,
                          open: bool, h: seq<Connection>, after: seq<ConnectionDesc<D>>)
  {
    && j < n <= |before|
    && open == before[j].isOpen
    && (open ==> |h| == |react(before[j].delegate)| && after == Apply(before, react(before[j].delegate), h))
    && (!open ==> after == before)
  }

  /**
   * `states`, `seen` and `handles` trace the first |seen| steps of a
   * notification round over `n` entries: `states[j]` is the list when entry
   * j is reached, `seen[j]` whether that entry was open then and
   * `handles[j]` the connections its delegate opened.
   */
  ghost predicate Round<D>(react: D -> seq<Reaction<D>>, seen: seq<bool>,
                           states: seq<seq<ConnectionDesc<D>>>, handles: seq<seq<Connection>>, n: nat)
  {
    && |seen| <= n && |states| == |seen| + 1 && |handles| == |seen|
    && forall j {:trigger seen[j]} :: 0 <= j < |seen| ==>
      Step(react, n, j, states[j], seen[j], handles[j], states[j + 1])
  }

  /** A round's trace grows by the step at the next entry. */
  lemma RoundExtends<D>(react: D -> seq<Reaction<D>>, seen: seq<bool>, states: seq<seq<ConnectionDesc<D>>>,
                        handles: seq<seq<Connection>>, n: nat, open: bool, h: seq<Connection>,
                        next: seq<ConnectionDesc<D>>)
    requires Round(react, seen, states, handles, n)
    requires Step(react, n, |seen|, states[|seen|], open, h, next)
    ensures Round(react, seen + [open], states + [next], handles + [h], n)
  {
    var i := |seen|;
    var seen', states', handles' := seen + [open], states + [next], handles + [h];
    forall j | 0 <= j < |seen'|
      ensures Step(react, n, j, states'[j], seen'[j], handles'[j], states'[j + 1])
    {
      if j < i {
        assert seen'[j] == seen[j] && handles'[j] == handles[j];
        assert states'[j] == states[j] && states'[j + 1] == states[j + 1];
      }
    }
  }

  class Event<D> {
    var connections: seq<ConnectionDesc<D>>
    var isNotifying: bool

    /** Outside a notification round every listed connection is open. */
    ghost predicate Valid()
      reads this
    {
      !isNotifying && forall j :: 0 <= j < |connections| ==> connections[j].isOpen
    }

    constructor()
      ensures connections == [] && !isNotifying
      ensures Valid()
    {
      connections := [];
      isNotifying := false;
    }

    /** OpenConnection: appends one open entry for a new connection, which is returned. */
    method OpenConnection(d: D) returns (c: Connection)
      modifies this
      ensures fresh(c)
      ensures connections == old(connections) + [ConnectionDesc(d, c, true)]
      ensures isNotifying == old(isNotifying)
    {
      c := new Connection();
      connections := connections + [ConnectionDesc(d, c, true)];
    }

    /**
     * CloseConnection: the first entry for `c` is removed, or only flagged
     * closed during a notification round; without such an entry nothing
     * changes.
     */
    method CloseConnection(c: Connection)
      modifies this
      ensures isNotifying == old(isNotifying)
      ensures match FindFrom(old(connections), c, 0)
        case None => connections == old(connections)
        case Some(i) =>
          if isNotifying then connections == old(connections)[i := old(connections)[i].(isOpen := false)]
          else connections == old(connections)[..i] + old(connections)[i + 1..]
    {
      var i := 0;
      while i < |connections|
        invariant i <= |connections|
        invariant connections == old(connections)
        invariant FindFrom(connections, c, i) == FindFrom(connections, c, 0)
      {
        if connections[i].connection == c {
          if !isNotifying {
            connections := connections[..i] + connections[i + 1..];
          } else {
            connections := connections[i := connections[i].(isOpen := false)];
          }
          return;
        }
        i := i + 1;
      }
    }

    /** RemoveClosedConnections: erases the closed entries while iterating, keeping the order of the rest. */
    method RemoveClosedConnections()
      modifies this
      ensures connections == OpenOnly(old(connections))
      ensures isNotifying == old(isNotifying)
    {
      ghost var k := 0;
      var i := 0;
      while i < |connections|
        invariant i <= |connections| && k <= |old(connections)|
        invariant connections[..i] == OpenOnly(old(connections)[..k])
        invariant connections[i..] == old(connections)[k..]
        invariant isNotifying == old(isNotifying)
        decreases |connections| - i
      {
        assert old(connections)[..k + 1] == old(connections)[..k] + [connections[i]];
        assert connections[i + 1..] == old(connections)[k + 1..];
        if !connections[i].isOpen {
          ghost var prefix := connections[..i];
          connections := connections[..i] + connections[i + 1..];
          assert connections[..i] == prefix;
        } else {
          i := i + 1;
        }
        k := k + 1;
      }
      assert old(connections)[..k] == old(connections);
    }

    /**
     * What a delegate called during a round does to the event: its reactions
     * one after another, each connection it opens being new.
     */
    method React(rs: seq<Reaction<D>>) returns (ghost handles: seq<Connection>)
      requires isNotifying
      modifies this
      ensures isNotifying
      ensures |handles| == |rs| && connections == Apply(old(connections), rs, handles)
      ensures forall k :: 0 <= k < |rs| && rs[k].OpenListener? ==> fresh(handles[k])
      ensures |connections| >= |old(connections)|
      ensures forall j :: 0 <= j < |old(connections)| ==>
        && connections[j].delegate == old(connections)[j].delegate
        && connections[j].connection == old(connections)[j].connection
        && (connections[j].isOpen ==> old(connections)[j].isOpen)
    {
      handles := [];
      var k := 0;
      while k < |rs|
        invariant k <= |rs| && |handles| == k
        invariant isNotifying
        invariant connections == Apply(old(connections), rs[..k], handles)
        invariant forall j :: 0 <= j < k && rs[j].OpenListener? ==> fresh(handles[j])
        invariant |connections| >= |old(connections)|
        invariant forall j :: 0 <= j < |old(connections)| ==>
          && connections[j].delegate == old(connections)[j].delegate
          && connections[j].connection == old(connections)[j].connection
          && (connections[j].isOpen ==> old(connections)[j].isOpen)
      {
        assert rs[..k + 1][..k] == rs[..k];
        ghost var before := handles;
        match rs[k] {
          case OpenListener(d) =>
            var c := OpenConnection(d);
            handles := handles + [c];
          case CloseListener(c) =>
            CloseConnection(c);
            handles := handles + [c];
        }
        assert handles[..k] == before;
        k := k + 1;
      }
      assert rs[..k] == rs;
    }

    /** One step of NotifyConnections: the delegate of entry `i` is called if that entry is open. */
    method Visit(react: D -> seq<Reaction<D>>, n: nat, i: nat) returns (open: bool, ghost h: seq<Connection>)
      requires isNotifying && i < n <= |connections|
      modifies this
      ensures isNotifying && n <= |connections|
      ensures Step(react, n, i, old(connections), open, h, connections)
      ensures forall j :: 0 <= j < n ==>
        && connections[j].delegate == old(connections)[j].delegate
        && connections[j].connection == old(connections)[j].connection
        && (connections[j].isOpen ==> old(connections)[j].isOpen)
    {
      open := connections[i].isOpen;
      h := [];
      if open {
        h := React(react(connections[i].delegate));
      }
    }

    /**
     * The loop of NotifyConnections over the first `n` entries, with the
     * event notifying.
     */
    method VisitAll(react: D -> seq<Reaction<D>>, n: nat)
      returns (called: seq<nat>, ghost seen: seq<bool>,
               ghost states: seq<seq<ConnectionDesc<D>>>, ghost handles: seq<seq<Connection>>)
      requires isNotifying && n <= |connections|
      modifies this
      ensures isNotifying && |seen| == n && called == TrueIndices(seen)
      ensures Round(react, seen, states, handles, n)
      ensures states[0] == old(connections) && states[n] == connections && n <= |connections|
      ensures forall j :: 0 <= j < n ==>
        && connections[j].delegate == old(connections)[j].delegate
        && connections[j].connection == old(connections)[j].connection
        && (connections[j].isOpen ==> seen[j])
    {
      called := [];
      seen := [];
      states := [connections];
      handles := [];
      var i := 0;
      while i < n
        invariant i <= n <= |connections|
        invariant isNotifying
        invariant |seen| == i && called == TrueIndices(seen)
        invariant Round(react, seen, states, handles, n)
        invariant states[0] == old(connections) && states[i] == connections
        invariant forall j :: 0 <= j < n ==>
          && connections[j].delegate == old(connections)[j].delegate
          && connections[j].connection == old(connections)[j].connection
        invariant forall j :: 0 <= j < i && connections[j].isOpen ==> seen[j]
      {
        ghost var h: seq<Connection>;
        var open;
        open, h := Visit(react, n, i);
        if open {
          called := called + [i];
        }
        RoundExtends(react, seen, states, handles, n, open, h, connections);
        TrueIndicesSnoc(seen, open);
        seen := seen + [open];
        states := states + [connections];
        handles := handles + [h];
        i := i + 1;
      }
    }

    /**
     * NotifyConnections: calls, in index order, the delegate of every entry
     * below the count taken on entry that is open when reached; `react` is
     * what each called delegate does to the event. Returns the indices
     * called. `states[j]` is the list when entry j is reached and
     * `states[n]` the list at the end of the round, before the closed
     * entries are removed; `seen[j]` is whether entry j was open when
     * reached, and `handles[j]` the connections its delegate opened.
     */
    method NotifyConnections(react: D -> seq<Reaction<D>>)
      returns (called: seq<nat>, ghost seen: seq<bool>,
               ghost states: seq<seq<ConnectionDesc<D>>>, ghost handles: seq<seq<Connection>>)
      requires Valid()
      modifies this
      ensures Valid()
      ensures |seen| == |old(connections)| && called == TrueIndices(seen)
      ensures |states| == |seen| + 1 && |handles| == |seen| && states[0] == old(connections)
      ensures Round(react, seen, states, handles, |seen|)
      ensures |states[|seen|]| >= |seen|
      ensures forall j :: 0 <= j < |seen| ==>
        && states[|seen|][j].delegate == old(connections)[j].delegate
        && states[|seen|][j].connection == old(connections)[j].connection
        && (states[|seen|][j].isOpen ==> seen[j])
      ensures connections == OpenOnly(states[|seen|])
    {
      isNotifying := true;
      called, seen, states, handles := VisitAll(react, |connections|);
      isNotifying := false;
      RemoveClosedConnections();
    }
  }
}
