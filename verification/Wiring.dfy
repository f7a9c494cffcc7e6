/** Descriptors, the pair makers of the communication modes, and `make_pairs`, which hands each
  thread a mouth to speak into and an ear to listen at. */
module Wiring {
  import opened Options

  /** What an entry of an `fd[2]` pair refers to. */
  datatype Desc =
    | PipeEnd(pipe: nat, writable: bool)
    | SocketEnd(conn: nat, atServer: bool)
    | Counter(id: nat)
    | Index(i: nat)

  /** Where bytes or counts wait to be read. */
  datatype Chan =
    | PipeBuffer(pipe: nat)
    | SocketBuffer(conn: nat, atServer: bool)
    | CounterCell(id: nat)
    | Queue(i: nat)

  /** The place a write on `d` goes to; a pipe can be written at one end only. */
  function WriteChan(d: Desc): Option<Chan> {
    match d
    case PipeEnd(p, writable) => if writable then Some(PipeBuffer(p)) else None
    case SocketEnd(c, atServer) => Some(SocketBuffer(c, !atServer))
    case Counter(id) => Some(CounterCell(id))
    case Index(i) => Some(Queue(i))
  }

  /** The place a read on `d` takes from. */
  function ReadChan(d: Desc): Option<Chan> {
    match d
    case PipeEnd(p, writable) => if writable then None else Some(PipeBuffer(p))
    case SocketEnd(c, atServer) => Some(SocketBuffer(c, atServer))
    case Counter(id) => Some(CounterCell(id))
    case Index(i) => Some(Queue(i))
  }

  /** A pipe end either writes or reads; what is written at one end of a socket is read at the other and not at
    the same; counters and queues are read where they are written. */
  lemma Directions(n: nat, b: bool)
    ensures WriteChan(PipeEnd(n, b)).Some? <==> b
    ensures ReadChan(PipeEnd(n, b)).Some? <==> !b
    ensures WriteChan(PipeEnd(n, true)) == ReadChan(PipeEnd(n, false))
    ensures WriteChan(SocketEnd(n, b)) == ReadChan(SocketEnd(n, !b)) != ReadChan(SocketEnd(n, b))
    ensures WriteChan(SocketEnd(n, b)).Some?
    ensures WriteChan(Counter(n)) == ReadChan(Counter(n)) == Some(CounterCell(n))
    ensures WriteChan(Index(n)) == ReadChan(Index(n)) == Some(Queue(n))
  {
  }

  /** Each thread's mouth speaks into the other's ear, and nowhere else. */
  predicate Crossed(mouth: seq<Desc>, ear: seq<Desc>) {
    && |mouth| == |ear| == 2
    && WriteChan(mouth[0]).Some? && WriteChan(mouth[1]).Some?
    && WriteChan(mouth[0]) == ReadChan(ear[1])
    && WriteChan(mouth[1]) == ReadChan(ear[0])
    && WriteChan(mouth[0]) != WriteChan(mouth[1])
  }

  datatype Maker = Pipe | SocketPair | Tcp | EventCounter | SharedIndex | FutexWord

  /** The pair made by the `call`-th call (0 or 1) of a maker. */
  function PairOf(maker: Maker, call: nat): (Desc, Desc) {
    match maker
    case Pipe => (PipeEnd(call, false), PipeEnd(call, true))
    case SocketPair => (SocketEnd(call, false), SocketEnd(call, true))
    case Tcp => (SocketEnd(0, call == 0), SocketEnd(0, call != 0))
    case EventCounter => (Counter(call), Counter(call))
    case SharedIndex => (Index(call), Index(call))
    case FutexWord => (Index(call), Index(if call == 0 then 1 else 0))
  }

  /** One maker with the static variables it keeps between calls. */
  class PairMaker {
    const maker: Maker
    var num: nat
    var tcpFds: seq<Desc>

    ghost predicate Valid()
      reads this
    {
      maker == Tcp && num > 0 ==> tcpFds == [SocketEnd(0, true), SocketEnd(0, false)]
    }

    constructor (maker: Maker)
      ensures this.maker == maker && num == 0 && Valid()
    {
      this.maker := maker;
      num := 0;
      tcpFds := [];
    }

    method MakePair(fd: array<Desc>)
      requires Valid() && num < 2 && fd.Length == 2
      modifies this, fd
      ensures Valid() && num == old(num) + 1
      ensures (fd[0], fd[1]) == PairOf(maker, old(num))
    {
      match maker {
        case Pipe =>
          fd[0], fd[1] := PipeEnd(num, false), PipeEnd(num, true);
        case SocketPair =>
          fd[0], fd[1] := SocketEnd(num, false), SocketEnd(num, true);
        case Tcp =>
          if num == 0 {
            tcpFds := [SocketEnd(0, true), SocketEnd(0, false)];
          }
          fd[0] := tcpFds[num];
          fd[1] := tcpFds[if num == 0 then 1 else 0];
        case EventCounter =>
          fd[0] := Counter(num);
          fd[1] := fd[0];
        case SharedIndex =>
          fd[0] := Index(num);
          fd[1] := Index(num);
        case FutexWord =>
          fd[0] := Index(num);
          fd[1] := Index(if num == 0 then 1 else 0);
      }
      num := num + 1;
    }
  }

  /** The part of the configuration that `make_pairs` fills in. */
  class Config {
    const pair1: array<Desc>
    const pair2: array<Desc>
    const mouth: array<Desc>
    const ear: array<Desc>

    ghost predicate Valid() {
      && pair1.Length == pair2.Length == mouth.Length == ear.Length == 2
      && pair1 != pair2 && pair1 != mouth && pair1 != ear
      && pair2 != mouth && pair2 != ear && mouth != ear
    }

    constructor ()
      ensures Valid() && fresh(pair1) && fresh(pair2) && fresh(mouth) && fresh(ear)
    {
      pair1 := new Desc[2](_ => Index(0));
      pair2 := new Desc[2](_ => Index(0));
      mouth := new Desc[2](_ => Index(0));
      ear := new Desc[2](_ => Index(0));
    }

    /** However the pairs are made, the mouths and ears end up crossed; only the futex word, which is
      not a channel, gives a thread the same index to speak and to listen with. */
    method MakePairs(k: PairMaker)
      requires Valid() && k.Valid() && k.num == 0
      modifies k, pair1, pair2, mouth, ear
      ensures k.num == 2
      ensures (mouth[..], ear[..]) == Wire(k.maker)
      ensures k.maker != FutexWord ==> Crossed(mouth[..], ear[..])
      ensures k.maker == FutexWord ==> mouth[..] == ear[..] == [Index(1), Index(0)]
    {
      k.MakePair(pair1);
      k.MakePair(pair2);
      mouth[0] := pair1[1];
      ear[0] := pair2[0];
      mouth[1] := pair2[1];
      ear[1] := pair1[0];
      WiredAsMade(k.maker);
      assert mouth[..] == Wire(k.maker).0;
      assert ear[..] == Wire(k.maker).1;
    }
  }

  /** The mouths and ears of a mode. */
  function Wire(maker: Maker): (w: (seq<Desc>, seq<Desc>))
    ensures |w.0| == |w.1| == 2
  {
    match maker
    case Pipe => ([PipeEnd(0, true), PipeEnd(1, true)], [PipeEnd(1, false), PipeEnd(0, false)])
    case SocketPair => ([SocketEnd(0, true), SocketEnd(1, true)], [SocketEnd(1, false), SocketEnd(0, false)])
    case Tcp => ([SocketEnd(0, false), SocketEnd(0, true)], [SocketEnd(0, false), SocketEnd(0, true)])
    case EventCounter => ([Counter(0), Counter(1)], [Counter(1), Counter(0)])
    case SharedIndex => ([Index(0), Index(1)], [Index(1), Index(0)])
    case FutexWord => ([Index(1), Index(0)], [Index(1), Index(0)])
  }

  lemma WiredAsMade(maker: Maker)
    ensures var (p, q) := (PairOf(maker, 0), PairOf(maker, 1));
            Wire(maker) == ([p.1, q.1], [q.0, p.0])
    ensures Crossed(Wire(maker).0, Wire(maker).1) <==> maker != FutexWord
  {
  }

  /** The tcp loops bypass the mouths and ears: ping uses one end of the single connection for both
    directions and pong the other, which is crossed as well. */
  lemma TcpEndsAreCrossed()
    ensures var ends := [PairOf(Tcp, 0).0, PairOf(Tcp, 1).0];
            Crossed(ends, ends)
  {
  }
}
