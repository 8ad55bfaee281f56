/**
 Populating the particle store: `generateRandomCircles` and the count check
 that `main` performs before calling it. The random source is a sequence of
 non-negative `rand()` results; each circle consumes seven of them, in the
 order x, y, dx, dy, red, green, blue.
 */
module Generation {
  import opened Circles

  const DrawsPerCircle: nat := 7

  /** Every circle `generateRandomCircles` can produce lies in this box. */
  predicate Spawned(cfg: Config, c: Circle) {
    && cfg.spawnOffset <= c.x < cfg.spawnOffset + cfg.width - 2 * cfg.radius
    && cfg.spawnOffset <= c.y < cfg.spawnOffset + cfg.height - 2 * cfg.radius
    && -cfg.maxSpeed <= c.dx <= cfg.maxSpeed
    && -cfg.maxSpeed <= c.dy <= cfg.maxSpeed
  }

  /** The circle built from seven consecutive draws. */
  function SpawnCircle(cfg: Config, d: seq<nat>): (c: Circle)
    requires cfg.Valid()
    requires |d| == DrawsPerCircle
    ensures Spawned(cfg, c)
  {
    Circle(
      d[0] % (cfg.width - 2 * cfg.radius) + cfg.spawnOffset,
      d[1] % (cfg.height - 2 * cfg.radius) + cfg.spawnOffset,
      d[2] % (2 * cfg.maxSpeed + 1) - cfg.maxSpeed,
      d[3] % (2 * cfg.maxSpeed + 1) - cfg.maxSpeed,
      Color(d[4] % 256, d[5] % 256, d[6] % 256))
  }

  /** The draws that make `SpawnCircle` produce `c`. */
  function DrawsFor(cfg: Config, c: Circle): seq<nat>
    requires Spawned(cfg, c)
  {
    [c.x - cfg.spawnOffset, c.y - cfg.spawnOffset,
     c.dx + cfg.maxSpeed, c.dy + cfg.maxSpeed,
     c.color.r, c.color.g, c.color.b]
  }

  /** The generator reaches the whole spawn box and every colour: any circle
      in the box is what some seven draws produce. */
  lemma SpawnReachesEveryCircle(cfg: Config, c: Circle)
    requires cfg.Valid()
    requires Spawned(cfg, c)
    ensures |DrawsFor(cfg, c)| == DrawsPerCircle
    ensures SpawnCircle(cfg, DrawsFor(cfg, c)) == c
  {
    var d := DrawsFor(cfg, c);
    assert d[0] % (cfg.width - 2 * cfg.radius) == d[0];
    assert d[1] % (cfg.height - 2 * cfg.radius) == d[1];
    assert d[2] % (2 * cfg.maxSpeed + 1) == d[2];
    assert d[3] % (2 * cfg.maxSpeed + 1) == d[3];
  }

  /** The draws circle `i` consumes. */
  function DrawsOf(draws: seq<nat>, i: nat): (d: seq<nat>)
    requires DrawsPerCircle * (i + 1) <= |draws|
    ensures |d| == DrawsPerCircle
  {
    draws[DrawsPerCircle * i .. DrawsPerCircle * (i + 1)]
  }

  /** `generateRandomCircles(n)`: n circles appended in order, circle `i`
      built from draws 7i .. 7i+6. */
  function Generate(cfg: Config, n: nat, draws: seq<nat>): (cs: seq<Circle>)
    requires cfg.Valid()
    requires DrawsPerCircle * n <= |draws|
    ensures |cs| == n
    ensures forall i :: 0 <= i < n ==> cs[i] == SpawnCircle(cfg, DrawsOf(draws, i))
    ensures forall i :: 0 <= i < n ==> Spawned(cfg, cs[i])
  {
    if n == 0 then []
    else Generate(cfg, n - 1, draws) + [SpawnCircle(cfg, DrawsOf(draws, n - 1))]
  }

  /** The check `main` applies to the parsed circle count. */
  predicate CountAccepted(cfg: Config, count: int) {
    !(count < 1 || count > cfg.maxCircles)
  }

  /** The count check followed by generation: an out-of-range count is
      reported before any circle exists; otherwise exactly `count` circles
      come out, each inside the spawn box. */
  function Initialize(cfg: Config, count: int, draws: seq<nat>): (r: Result<seq<Circle>>)
    requires cfg.Valid()
    requires 1 <= count <= cfg.maxCircles ==> DrawsPerCircle * count <= |draws|
    ensures r.Failure? <==> count < 1 || cfg.maxCircles < count
    ensures r.Failure? ==> r.error == InvalidCount(count)
    ensures r.Success? ==> |r.value| == count
    ensures r.Success? ==> forall i :: 0 <= i < |r.value| ==> Spawned(cfg, r.value[i])
  {
    if !CountAccepted(cfg, count) then Failure(InvalidCount(count))
    else Success(Generate(cfg, count, draws))
  }
}
