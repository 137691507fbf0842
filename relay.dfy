/**
 * The relay server: one process-wide game (a fixed id and an append-only list
 * of moves) and the set of live connections. Every inbound message that
 * parses appends one move, with no validation, and the whole game is then sent
 * to every open connection; a new connection is sent the whole game when it
 * joins.
 *
 * JSON text is not modelled: an inbound frame arrives already parsed, and a
 * snapshot is sent as the game value itself.
 */
module Relay {

  /** A field read from a parsed message: JSON.parse may give any JSON value, or none. */
  datatype Value = Undefined | Number(n: real) | Text(s: string) | OtherJson

  datatype Move = Move(x: Value, y: Value, player: Value)

  /** The game as it is sent: its id and the whole move list. */
  datatype Game = Game(gameId: string, moves: seq<Move>)

  /**
   * An inbound frame after parsing: text that is not JSON, the JSON literal
   * null, or any other JSON value, of which only the fields x, y and player
   * are read (a missing field, or a value that is not an object, reads as
   * Undefined).
   */
  datatype Inbound = Unparsable | ParsedNull | Parsed(x: Value, y: Value, player: Value)

  /** Whether the message handler appended a move or threw before doing so. */
  datatype Outcome = Appended | Threw

  type ClientId = nat

  /** A live connection: whether its socket is open, and the snapshots sent to it. */
  datatype Conn = Conn(open: bool, inbox: seq<Game>)

  /** The game the process starts with. */
  function MakeGame(): Game
  {
    Game("ABCDEFG", [Move(Number(0.0), Number(0.0), Text("x"))])
  }

  /** Sends g to c if c is open. */
  function Deliver(c: Conn, g: Game): Conn
  {
    if c.open then c.(inbox := c.inbox + [g]) else c
  }

  /** The fan-out: every open connection receives g once; the others receive nothing. */
  function Broadcast(conns: map<ClientId, Conn>, g: Game): (r: map<ClientId, Conn>)
    ensures r.Keys == conns.Keys
    ensures forall id :: id in conns && conns[id].open ==> r[id] == Conn(true, conns[id].inbox + [g])
    ensures forall id :: id in conns && !conns[id].open ==> r[id] == conns[id]
  {
    map id | id in conns :: Deliver(conns[id], g)
  }

  /**
   * After a fan-out, all open connections hold the same latest snapshot:
   * the payload is built once and the same value goes to every recipient.
   */
  lemma BroadcastIsUniform(conns: map<ClientId, Conn>, g: Game, a: ClientId, b: ClientId)
    requires a in conns && b in conns && conns[a].open && conns[b].open
    ensures var r := Broadcast(conns, g);
            |r[a].inbox| > 0 && |r[b].inbox| > 0
            && r[a].inbox[|r[a].inbox| - 1] == r[b].inbox[|r[b].inbox| - 1] == g
  {
  }

  /** The moves after one inbound frame: the old moves, then at most one more. */
  function Push(moves: seq<Move>, msg: Inbound): (r: seq<Move>)
    ensures moves <= r && |r| <= |moves| + 1
  {
    if msg.Parsed? then moves + [Move(msg.x, msg.y, msg.player)] else moves
  }

  /** The moves after a series of inbound frames, handled one at a time. */
  function Replay(moves: seq<Move>, msgs: seq<Inbound>): seq<Move>
    decreases |msgs|
  {
    if msgs == [] then moves else Replay(Push(moves, msgs[0]), msgs[1..])
  }

  /** The moves the parsed frames of msgs carry, in order. */
  function AcceptedMoves(msgs: seq<Inbound>): (r: seq<Move>)
    ensures |r| <= |msgs|
  {
    if msgs == [] then []
    else (if msgs[0].Parsed? then [Move(msgs[0].x, msgs[0].y, msgs[0].player)] else [])
         + AcceptedMoves(msgs[1..])
  }

  /**
   * The log is append-only: after any series of frames the old moves are an
   * unchanged prefix, followed by exactly the moves of the parsed frames in
   * arrival order.
   */
  lemma {:induction false} ReplayAppends(moves: seq<Move>, msgs: seq<Inbound>)
    ensures Replay(moves, msgs) == moves + AcceptedMoves(msgs)
    ensures moves <= Replay(moves, msgs)
    decreases |msgs|
  {
    if msgs != [] {
      ReplayAppends(Push(moves, msgs[0]), msgs[1..]);
    }
  }

  /** The server process: the single game and the connection set. */
  class Server {
    const gameId: string
    var moves: seq<Move>
    /** The open and closing connections, with what each has been sent. */
    var conns: map<ClientId, Conn>

    constructor ()
      ensures gameId == "ABCDEFG"
      ensures moves == [Move(Number(0.0), Number(0.0), Text("x"))]
      ensures conns == map[]
    {
      var g := MakeGame();
      gameId := g.gameId;
      moves := g.moves;
      conns := map[];
    }

    /** The game as a snapshot. */
    function Current(): Game
      reads this`moves
    {
      Game(gameId, moves)
    }

    /** A new connection is registered and sent the current game. */
    method Join(id: ClientId)
      requires id !in conns
      modifies this
      ensures conns == old(conns)[id := Conn(true, [Current()])]
      ensures moves == old(moves)
    {
      conns := conns[id := Conn(true, [Current()])];
    }

    /**
     * The message handler. A frame that parses appends its x, y and player
     * as they are, with no check of cell or turn, and the whole game is then
     * sent to every open connection. A frame that does not parse, or parses
     * to null, throws before the append: nothing changes and nothing is sent.
     */
    method Submit(msg: Inbound) returns (outcome: Outcome)
      modifies this
      ensures outcome == (if msg.Parsed? then Appended else Threw)
      ensures moves == Push(old(moves), msg)
      ensures msg.Parsed? ==> moves == old(moves) + [Move(msg.x, msg.y, msg.player)]
      ensures msg.Parsed? ==> conns == Broadcast(old(conns), Current())
      ensures !msg.Parsed? ==> moves == old(moves) && conns == old(conns)
    {
      if !msg.Parsed? {
        return Threw;
      }
      moves := moves + [Move(msg.x, msg.y, msg.player)];

      var out := Current();
      var pending := conns.Keys;
      while pending != {}
        invariant moves == old(moves) + [Move(msg.x, msg.y, msg.player)] && out == Current()
        invariant pending <= conns.Keys
        invariant conns.Keys == old(conns).Keys
        invariant forall id :: id in conns && id !in pending ==> conns[id] == Deliver(old(conns)[id], out)
        invariant forall id :: id in pending ==> conns[id] == old(conns)[id]
        decreases pending
      {
        var id :| id in pending;
        if conns[id].open {
          conns := conns[id := conns[id].(inbox := conns[id].inbox + [out])];
        }
        pending := pending - {id};
      }
      return Appended;
    }

    /** The socket of id has started to close: it stays registered but is no longer open. */
    method Close(id: ClientId)
      requires id in conns
      modifies this
      ensures conns == old(conns)[id := old(conns)[id].(open := false)]
      ensures moves == old(moves)
    {
      conns := conns[id := conns[id].(open := false)];
    }

    /** The connection id has closed and is deregistered. */
    method Leave(id: ClientId)
      modifies this
      ensures conns == old(conns) - {id}
      ensures moves == old(moves)
    {
      conns := conns - {id};
    }
  }

  /**
   * Two connections join a fresh server and the first submits an "o" at
   * (0, 1): both are sent the initial game, then both are sent the game with
   * the two moves.
   */
  method TwoClientsScenario() returns (first: seq<Game>, second: seq<Game>)
    ensures var g0 := Game("ABCDEFG", [Move(Number(0.0), Number(0.0), Text("x"))]);
            var g1 := Game("ABCDEFG", g0.moves + [Move(Number(0.0), Number(1.0), Text("o"))]);
            first == second == [g0, g1]
  {
    var s := new Server();
    s.Join(1);
    s.Join(2);
    var outcome := s.Submit(Parsed(Number(0.0), Number(1.0), Text("o")));
    first, second := s.conns[1].inbox, s.conns[2].inbox;
  }

  /**
   * A frame that is valid JSON but lacks y and player is not dropped: the
   * move is appended with those fields undefined and the game is broadcast.
   * A frame that is not JSON then throws, appending and sending nothing.
   */
  method MalformedFramesScenario() returns (inbox: seq<Game>, moveCount: nat, last: Outcome)
    ensures |inbox| == 2 && moveCount == 2 && last == Threw
    ensures |inbox[1].moves| == 2
    ensures inbox[1].moves[1] == Move(Number(1.0), Undefined, Undefined)
  {
    var s := new Server();
    s.Join(7);
    var first := s.Submit(Parsed(Number(1.0), Undefined, Undefined));
    last := s.Submit(Unparsable);
    inbox, moveCount := s.conns[7].inbox, |s.moves|;
  }
}
