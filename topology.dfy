/**
 * Brigade topology of the MassiveSolver: the global communicator of
 * `worldSize` ranks is cut into brigades of `brigadeSize` consecutive ranks,
 * each with its own sub-communicator (the "brigadier").
 */
module Topology {
  import opened Wrappers

  /** What every rank knows about the launch: the size of the global
      communicator and the optional brigade size handed to the solver. */
  datatype Config = Config(worldSize: nat, brigadeSizeArg: Option<nat>)

  /** A communicator, as the ordered list of the global ranks it holds:
      `members[i]` is the global rank of the process whose rank in it is `i`. */
  datatype Comm = Comm(members: seq<nat>)

  /** Verdict of a divisibility check on (world size, brigade size). */
  datatype GuardOutcome = Passes | Rejected | DivisionByZero

  function Min(a: nat, b: nat): nat { if a <= b then a else b }

  /** The integers lo, lo+1, ..., hi-1 in increasing order. */
  function Range(lo: nat, hi: nat): (r: seq<nat>)
    requires lo <= hi
    ensures |r| == hi - lo
    ensures forall i :: 0 <= i < |r| ==> r[i] == lo + i
  {
    seq(hi - lo, i requires 0 <= i < hi - lo => lo + i)
  }

  /** The global communicator: every rank, in rank order. */
  function World(worldSize: nat): Comm
  {
    Comm(Range(0, worldSize))
  }

  /** `mpi_brigade`: the truncated quotient int(rank / B) when a brigade size
      B is given, and brigade 0 otherwise. */
  function MpiBrigade(cfg: Config, rank: nat): nat
    requires cfg.brigadeSizeArg != Some(0)
  {
    match cfg.brigadeSizeArg
    case None => 0
    case Some(b) => rank / b
  }

  /** `brigade_size`: the given size, or the whole world when none is given. */
  function BrigadeSize(cfg: Config): nat
  {
    match cfg.brigadeSizeArg
    case None => cfg.worldSize
    case Some(b) => b
  }

  /** `brigades`: the truncated quotient int(W / B), or one brigade. */
  function Brigades(cfg: Config): nat
    requires cfg.brigadeSizeArg != Some(0)
  {
    match cfg.brigadeSizeArg
    case None => 1
    case Some(b) => cfg.worldSize / b
  }

  /** The ranks of `ranks` whose colour `x / b` is `color`, in their order there. */
  function WithColor(ranks: seq<nat>, b: nat, color: nat): (r: seq<nat>)
    requires b > 0
    ensures forall x :: x in r <==> x in ranks && x / b == color
    decreases |ranks|
  {
    if ranks == [] then []
    else
      var rest := WithColor(ranks[..|ranks| - 1], b, color);
      var x := ranks[|ranks| - 1];
      assert ranks == ranks[..|ranks| - 1] + [x];
      if x / b == color then rest + [x] else rest
  }

  /** MPI_COMM_SPLIT (section 6.4.2 of the MPI 3.1 standard) as the solver
      calls it: every rank passes colour `rank / b` and key `rank`.  The new
      communicator of colour `color` holds the ranks of that colour, ordered
      by key, ties broken by parent rank; with the key equal to the parent
      rank that order is the parent order. */
  function Split(parent: Comm, b: nat, color: nat): Comm
    requires b > 0
  {
    Comm(WithColor(parent.members, b, color))
  }

  /** `Get_rank()` on a communicator for the process of global rank `g`. */
  function CommRank(comm: Comm, g: nat): (i: nat)
    requires g in comm.members
    ensures i < |comm.members| && comm.members[i] == g
    ensures g !in comm.members[..i]
    decreases |comm.members|
  {
    if comm.members[0] == g then 0
    else 1 + CommRank(Comm(comm.members[1..]), g)
  }

  /** The check at the start of `split_into_brigades` as written:
      `assert (1 - W % B)` fails exactly when the expression is zero. */
  function LiteralGuard(worldSize: nat, b: nat): (g: GuardOutcome)
    ensures b == 0 <==> g == DivisionByZero
    ensures b > 0 ==> (g == Rejected <==> worldSize % b == 1)
  {
    if b == 0 then DivisionByZero
    else if 1 - worldSize % b != 0 then Passes
    else Rejected
  }

  /** The check as its comment intends it: B must divide W evenly. */
  function EvenGuard(worldSize: nat, b: nat): (g: GuardOutcome)
    ensures b == 0 <==> g == DivisionByZero
  {
    if b == 0 then DivisionByZero
    else if worldSize % b == 0 then Passes
    else Rejected
  }

  lemma {:induction false} MulLe(a: nat, c: nat, b: nat)
    requires a <= c
    ensures a * b <= c * b
  {
    if a < c {
      MulLe(a, c - 1, b);
      assert (c - 1) * b + b == c * b;
    }
  }

  /** The truncated quotient x / b is the one c with c*b <= x < c*b + b. */
  lemma QuotientIs(x: nat, b: nat, c: nat)
    requires b > 0
    ensures x / b == c <==> c * b <= x < c * b + b
  {
    var q, m := x / b, x % b;
    assert x == q * b + m && 0 <= m < b;
    if c < q {
      MulLe(c + 1, q, b);
      assert (c + 1) * b == c * b + b;
    } else if c > q {
      MulLe(q + 1, c, b);
      assert (q + 1) * b == q * b + b;
    }
  }

  /** The brigade accessors: with a size B, the brigade index and the brigade
      count are the truncated quotients of the rank and of the world size by
      B; without one, the whole world is brigade 0 of 1. */
  lemma BrigadeAccessors(cfg: Config, rank: nat)
    requires cfg.brigadeSizeArg != Some(0)
    ensures cfg.brigadeSizeArg.None? ==>
      MpiBrigade(cfg, rank) == 0 && Brigades(cfg) == 1 && BrigadeSize(cfg) == cfg.worldSize
    ensures cfg.brigadeSizeArg.Some? ==>
      var b := cfg.brigadeSizeArg.value;
      && BrigadeSize(cfg) == b
      && MpiBrigade(cfg, rank) * b <= rank < MpiBrigade(cfg, rank) * b + b
      && Brigades(cfg) * b <= cfg.worldSize < Brigades(cfg) * b + b
  {
    if cfg.brigadeSizeArg.Some? {
      var b := cfg.brigadeSizeArg.value;
      QuotientIs(rank, b, rank / b);
      QuotientIs(cfg.worldSize, b, cfg.worldSize / b);
    }
  }

  /** The ranks of brigade `c` in a world of `worldSize` ranks are the
      consecutive ranks c*b .. c*b+b-1, cut off at the world's end. */
  lemma {:induction false} BrigadeMembers(worldSize: nat, b: nat, c: nat)
    requires b > 0
    ensures WithColor(Range(0, worldSize), b, c)
         == Range(Min(c * b, worldSize), Min(c * b + b, worldSize))
  {
    if worldSize > 0 {
      var w := worldSize - 1;
      assert Range(0, worldSize)[..w] == Range(0, w);
      BrigadeMembers(w, b, c);
      QuotientIs(w, b, c);
      if w / b == c {
        assert Range(Min(c * b, w), Min(c * b + b, w)) + [w]
            == Range(Min(c * b, worldSize), Min(c * b + b, worldSize));
      }
    }
  }

  /** With B dividing W, a rank's brigade index is below the brigade count
      and its brigade ends inside the world. */
  lemma BrigadeIndexInRange(worldSize: nat, b: nat, rank: nat)
    requires b > 0 && worldSize % b == 0 && rank < worldSize
    ensures rank / b < worldSize / b
    ensures (rank / b) * b <= rank < (rank / b) * b + b <= worldSize
  {
    var c := rank / b;
    QuotientIs(rank, b, c);
    var n := worldSize / b;
    assert worldSize == n * b;
    if c >= n {
      MulLe(n, c, b);
    }
    MulLe(c + 1, n, b);
    assert (c + 1) * b == c * b + b;
  }

  /** In a communicator of consecutive ranks, a rank's position is its
      offset from the first. */
  lemma RankInRange(lo: nat, hi: nat, x: nat)
    requires lo <= x < hi
    ensures x in Range(lo, hi)
    ensures CommRank(Comm(Range(lo, hi)), x) == x - lo
  {
    var s := Range(lo, hi);
    assert s[x - lo] == x;
    var i := CommRank(Comm(s), x);
    assert s[i] == lo + i;
  }

  /** With B dividing W, splitting by colour `rank / B` and key `rank` puts
      each rank in a brigade of exactly B consecutive ranks, whose index is
      below the brigade count, and makes its brigade rank its offset in it. */
  lemma SplitRankIsOffset(worldSize: nat, b: nat, rank: nat, c: nat)
    requires b > 0 && worldSize % b == 0 && rank < worldSize
    requires c == rank / b
    ensures c < worldSize / b
    ensures Split(World(worldSize), b, c).members == Range(c * b, c * b + b)
    ensures rank in Split(World(worldSize), b, c).members
    ensures CommRank(Split(World(worldSize), b, c), rank) == rank - c * b
  {
    var lo := c * b;
    BrigadeIndexInRange(worldSize, b, rank);
    assert lo <= rank < lo + b <= worldSize;
    BrigadeMembers(worldSize, b, c);
    assert Min(lo, worldSize) == lo && Min(lo + b, worldSize) == lo + b;
    var brigade := Split(World(worldSize), b, c);
    assert brigade == Comm(Range(lo, lo + b));
    RankInRange(lo, lo + b, rank);
    assert CommRank(brigade, rank) == rank - lo;
  }

  /** The intended guard is exact: it passes precisely when every rank's
      brigade holds B ranks. */
  lemma EvenGuardMeansFullBrigades(worldSize: nat, b: nat)
    requires b > 0
    ensures EvenGuard(worldSize, b) == Passes <==>
      forall rank :: 0 <= rank < worldSize ==>
        |Split(World(worldSize), b, rank / b).members| == b
  {
    if worldSize % b == 0 {
      forall rank | 0 <= rank < worldSize
        ensures |Split(World(worldSize), b, rank / b).members| == b
      {
        SplitRankIsOffset(worldSize, b, rank, rank / b);
      }
    } else {
      var last := worldSize - 1;
      var c := last / b;
      QuotientIs(last, b, c);
      if worldSize == c * b + b {
        assert worldSize == (c + 1) * b;
        QuotientIs(worldSize, b, c + 1);
        assert false;
      }
      BrigadeMembers(worldSize, b, c);
      assert |Split(World(worldSize), b, c).members| < b;
    }
  }

  /** The guard as written lets W = 6, B = 4 through: there is then one
      brigade by count, yet ranks 4 and 5 form a second brigade, of index 1,
      holding two ranks. */
  lemma LiteralGuardAdmitsUnevenSplit()
    ensures LiteralGuard(6, 4) == Passes && EvenGuard(6, 4) == Rejected
    ensures Brigades(Config(6, Some(4))) == 1
    ensures MpiBrigade(Config(6, Some(4)), 4) == 1
    ensures Split(World(6), 4, 1).members == [4, 5]
  {
    BrigadeMembers(6, 4, 1);
    assert Range(4, 6) == [4, 5];
  }

  /** The solver object's brigade state. */
  class MassiveSolver {
    const cfg: Config
    const rank: nat
    /** `_mpi_comm_brigadier`: this rank's brigade communicator. */
    var brigadier: Comm
    /** Whether `split_into_brigades` reported an uneven division. */
    var unevenReported: bool

    ghost predicate Valid()
      reads this
    {
      && rank < cfg.worldSize
      && cfg.brigadeSizeArg != Some(0)
      && (cfg.brigadeSizeArg.None? ==> brigadier == World(cfg.worldSize))
      && (cfg.brigadeSizeArg.Some? ==>
            brigadier == Split(World(cfg.worldSize), cfg.brigadeSizeArg.value, MpiBrigade(cfg, rank)))
      && rank in brigadier.members
    }

    constructor (worldSize: nat, rank: nat, brigadeSize: Option<nat>)
      requires rank < worldSize && brigadeSize != Some(0)
      ensures Valid()
      ensures this.cfg == Config(worldSize, brigadeSize) && this.rank == rank
      ensures brigadeSize.None? ==> brigadier == World(worldSize) && !unevenReported
      ensures brigadeSize.Some? ==>
        && brigadier == Split(World(worldSize), brigadeSize.value, rank / brigadeSize.value)
        && unevenReported == (EvenGuard(worldSize, brigadeSize.value) == Rejected)
    {
      this.cfg := Config(worldSize, brigadeSize);
      this.rank := rank;
      brigadier := World(worldSize);
      unevenReported := false;
      new;
      assert brigadier.members[rank] == rank;
      if brigadeSize.Some? {
        SplitIntoBrigades();
      }
    }

    /** `split_into_brigades`: report a world size the brigade size does not
        divide (with the corrected check `EvenGuard`; the report does not stop
        the split), then split by colour `mpi_brigade` and key `rank`. */
    method SplitIntoBrigades()
      requires cfg.brigadeSizeArg.Some? && cfg.brigadeSizeArg.value > 0
      requires rank < cfg.worldSize
      modifies this
      ensures Valid()
      ensures unevenReported == (EvenGuard(cfg.worldSize, cfg.brigadeSizeArg.value) == Rejected)
      ensures brigadier == Split(World(cfg.worldSize), cfg.brigadeSizeArg.value, MpiBrigade(cfg, rank))
    {
      var b := cfg.brigadeSizeArg.value;
      unevenReported := EvenGuard(cfg.worldSize, b) == Rejected;
      var world := World(cfg.worldSize);
      assert world.members[rank] == rank;
      brigadier := Split(world, b, MpiBrigade(cfg, rank));
    }

    /** `brigade_rank`: the rank in the brigade communicator, or the global
        rank when there is one brigade. */
    function BrigadeRank(): (r: nat)
      reads this
      requires Valid()
      ensures r < |brigadier.members| && brigadier.members[r] == rank
      ensures cfg.brigadeSizeArg.None? ==> r == rank
      ensures cfg.brigadeSizeArg.Some? && cfg.worldSize % cfg.brigadeSizeArg.value == 0 ==>
        r == rank - MpiBrigade(cfg, rank) * cfg.brigadeSizeArg.value
    {
      if cfg.brigadeSizeArg.Some? then
        var b := cfg.brigadeSizeArg.value;
        if cfg.worldSize % b == 0 then
          SplitRankIsOffset(cfg.worldSize, b, rank, rank / b);
          CommRank(brigadier, rank)
        else CommRank(brigadier, rank)
      else
        assert brigadier.members[rank] == rank;
        rank
    }
  }
}
