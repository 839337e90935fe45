/**
  class State of rooms/02-state-handler.ts: the world of one room.  Players
  are keyed by session id; alpacas and decorations are kept in order.  The
  world owns its entities: no player object is reachable under two ids and
  no alpaca object appears twice.
*/
module World {
  import opened Vectors
  import opened Random
  import opened Entities
  import opened AlpacaAI

  /** Alpacas spawned by State.init. */
  const AlpacaCount: nat := 1
  /** Decorations spawned by State.init. */
  const DecorationCount: nat := 100
  /** A client's claimed position is accepted when strictly closer than this to the server's. */
  const ReconcileRadius: real := 10.0

  /** The position checkPlayerPosition leaves: the client's claim if close enough, else the server's own. */
  function Reconciled(server: Vector, claim: Vector): Vector
  {
    if ShorterThan(Sub(server, claim), ReconcileRadius) then claim else server
  }

  /**
    The server position becomes the claim exactly when the two are strictly
    within 10 units; otherwise it stays as it was.
  */
  lemma ReconciledAccepts(server: Vector, claim: Vector)
    ensures ShorterThan(Sub(server, claim), ReconcileRadius) ==> Reconciled(server, claim) == claim
    ensures Reconciled(server, claim) == claim ==> ShorterThan(Sub(server, claim), ReconcileRadius)
    ensures !ShorterThan(Sub(server, claim), ReconcileRadius) ==> Reconciled(server, claim) == server
  {
  }

  /** The reconciliation boundary: a claim 9.99 units away is taken, one 10.01 units away is not. */
  lemma ReconcileBoundary(server: Vector)
    ensures Reconciled(server, Vector(server.x + 9.99, server.y)) == Vector(server.x + 9.99, server.y)
    ensures Reconciled(server, Vector(server.x + 10.01, server.y)) == server
  {
    assert Sub(server, Vector(server.x + 9.99, server.y)) == Vector(-9.99, 0.0);
    assert Sub(server, Vector(server.x + 10.01, server.y)) == Vector(-10.01, 0.0);
  }

  /** The decorations built from the draws ds, in order. */
  function Decorations(ds: seq<SpawnDraw>): (r: seq<Decoration>)
    requires forall i :: 0 <= i < |ds| ==> ds[i].Valid()
    ensures |r| == |ds|
    ensures forall i :: 0 <= i < |ds| ==> r[i] == NewDecoration(ds[i])
  {
    if ds == [] then [] else Decorations(ds[..|ds| - 1]) + [NewDecoration(ds[|ds| - 1])]
  }

  class State {
    var players: map<string, Player>
    var alpacas: seq<Alpaca>
    var decorations: seq<Decoration>

    /** Ownership: distinct ids hold distinct player objects, and no alpaca object is listed twice. */
    ghost predicate Valid()
      reads this
    {
      && (forall a, b :: a in players && b in players && a != b ==> players[a] != players[b])
      && (forall i, j :: 0 <= i < j < |alpacas| ==> alpacas[i] != alpacas[j])
    }

    /** The positions of all players, as alpacas see them. */
    function PlayerPositions(): map<string, Vector>
      reads this, players.Values
    {
      Positions(players)
    }

    constructor ()
      ensures Valid()
      ensures players == map[] && alpacas == [] && decorations == []
    {
      players := map[];
      alpacas := [];
      decorations := [];
    }

    /** State.createPlayer: a new player under id, replacing whatever was there; nobody else changes. */
    method CreatePlayer(id: string, d: SpawnDraw)
      requires Valid() && d.Valid()
      modifies this
      ensures Valid()
      ensures players.Keys == old(players).Keys + {id}
      ensures fresh(players[id]) && players[id].color in PlayerColors
      ensures players[id].color == PlayerColors[RandomInt(d.pick, |PlayerColors|)]
      ensures players[id].CurrentMotion() == Motion(SpawnPosition(d), Zero, Zero)
      ensures forall k :: k in old(players) && k != id ==> players[k] == old(players)[k]
      ensures alpacas == old(alpacas) && decorations == old(decorations)
    {
      var player := new Player(d);
      players := players[id := player];
    }

    /** State.removePlayer: id is gone (it need not have been there) and every other player is kept. */
    method RemovePlayer(id: string)
      requires Valid()
      modifies this
      ensures Valid()
      ensures id !in players
      ensures players == old(players) - {id}
      ensures alpacas == old(alpacas) && decorations == old(decorations)
    {
      players := players - {id};
    }

    /**
      State.setPlayerMovement: the player's intent becomes m as given; nothing
      else changes.  For an id with no player the source dereferences
      undefined and throws; ok is false then, and nothing has changed.
    */
    method SetPlayerMovement(id: string, m: Vector) returns (ok: bool)
      requires Valid()
      modifies if id in players then {players[id]} else {}
      ensures ok <==> id in players
      ensures ok ==> players[id].CurrentMotion() == old(players[id].CurrentMotion()).(movement := m)
      ensures forall k :: k in players && k != id ==> players[k].CurrentMotion() == old(players[k].CurrentMotion())
    {
      if id !in players {
        return false;
      }
      players[id].SetMovement(m);
      ok := true;
    }

    /**
      State.checkPlayerPosition: the server adopts the client's position when
      it is strictly within 10 units of its own, and otherwise keeps its own;
      the player's intent and velocity and every other player are untouched.
      For an id with no player the source throws; ok is false then, and
      nothing has changed.
    */
    method CheckPlayerPosition(id: string, clientPosition: Vector) returns (ok: bool)
      requires Valid()
      modifies if id in players then {players[id]} else {}
      ensures ok <==> id in players
      ensures ok ==> players[id].pos == Reconciled(old(players[id].pos), clientPosition)
      ensures ok ==> players[id].movement == old(players[id].movement) && players[id].velocity == old(players[id].velocity)
      ensures forall k :: k in players && k != id ==> players[k].CurrentMotion() == old(players[k].CurrentMotion())
    {
      if id !in players {
        return false;
      }
      var player := players[id];
      var distance := Sub(player.pos, clientPosition);
      if ShorterThan(distance, ReconcileRadius) {
        player.pos := clientPosition;
      }
      ok := true;
    }

    /** State.init: AlpacaCount new alpacas, then DecorationCount decorations, appended in order. */
    method Init(alpacaDraws: seq<SpawnDraw>, decorationDraws: seq<SpawnDraw>)
      requires Valid()
      requires |alpacaDraws| == AlpacaCount && |decorationDraws| == DecorationCount
      requires forall i :: 0 <= i < |alpacaDraws| ==> alpacaDraws[i].Valid()
      requires forall i :: 0 <= i < |decorationDraws| ==> decorationDraws[i].Valid()
      modifies this
      ensures Valid()
      ensures players == old(players)
      ensures |alpacas| == |old(alpacas)| + AlpacaCount && alpacas[..|old(alpacas)|] == old(alpacas)
      ensures forall a :: a in alpacas[|old(alpacas)|..] ==> fresh(a)
      ensures forall i :: 0 <= i < AlpacaCount ==> alpacas[|old(alpacas)| + i].View() == NewAlpaca(alpacaDraws[i])
      ensures decorations == old(decorations) + Decorations(decorationDraws)
    {
      ghost var n := |alpacas|;
      for i := 0 to AlpacaCount
        invariant Valid()
        invariant players == old(players) && decorations == old(decorations)
        invariant |alpacas| == n + i && alpacas[..n] == old(alpacas)
        invariant forall a :: a in alpacas[n..] ==> fresh(a)
        invariant forall j :: 0 <= j < i ==> alpacas[n + j].View() == NewAlpaca(alpacaDraws[j])
      {
        var alpaca := new Alpaca(alpacaDraws[i]);
        alpacas := alpacas + [alpaca];
      }
      var scattered := decorations;
      for i := 0 to DecorationCount
        invariant scattered == old(decorations) + Decorations(decorationDraws[..i])
      {
        assert decorationDraws[..i + 1][..i] == decorationDraws[..i];
        assert Decorations(decorationDraws[..i + 1]) == Decorations(decorationDraws[..i]) + [NewDecoration(decorationDraws[i])];
        scattered := scattered + [NewDecoration(decorationDraws[i])];
      }
      decorations := scattered;
      assert decorationDraws[..DecorationCount] == decorationDraws;
      assert n == |old(alpacas)|;
    }
  }
}
