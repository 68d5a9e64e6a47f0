/** The forward-Euler integrators: `solv_numpy` on a host array, and the
    bookkeeping of the sparse GPU context (`CUDASparseContext`) driven by
    `solv_CUDA_sparse`, with device buffers modelled as host arrays. One step
    is phi + (M_int phi + M_dec (rho_inv phi)) dX; after the steps listed in
    the grid indices the state is saved as a checkpoint. */
module Solvers {
  import opened Wrappers
  import opened Pdg
  import opened Matrices

  type Vec = seq<real>

  /** The dot product of a matrix row with a vector. */
  function Dot(row: Vec, v: Vec): real
    requires |row| == |v|
  {
    if v == [] then 0.0 else row[0] * v[0] + Dot(row[1..], v[1..])
  }

  /** The product of a matrix with a vector. */
  function MatVec(m: Mat, x: Vec): (y: Vec)
    requires forall i | 0 <= i < |m| :: |m[i]| == |x|
    ensures |y| == |m|
  {
    seq(|m|, i requires 0 <= i < |m| => Dot(m[i], x))
  }

  /** A vector of n zeros. */
  function Zeros(n: nat): (z: Vec)
    ensures |z| == n && forall i | 0 <= i < n :: z[i] == 0.0
  {
    seq(n, _ => 0.0)
  }

  /** The change of one step, as `solv_numpy` writes it:
      `imc.dot(phc) + dmc.dot(ric[step] * phc)`. */
  function Delta(phi: Vec, intM: Mat, decM: Mat, r: real): (d: Vec)
    requires Square(intM, |phi|) && Square(decM, |phi|)
    ensures |d| == |phi|
  {
    var a := MatVec(intM, phi);
    var b := MatVec(decM, Scaled(r, phi));
    seq(|phi|, i requires 0 <= i < |phi| => a[i] + b[i])
  }

  /** `phi + d * dx` */
  function Euler(phi: Vec, d: Vec, dx: real): (next: Vec)
    requires |d| == |phi|
    ensures |next| == |phi| && forall i | 0 <= i < |phi| :: next[i] == phi[i] + d[i] * dx
  {
    seq(|phi|, i requires 0 <= i < |phi| => phi[i] + d[i] * dx)
  }

  /** One forward-Euler step. */
  function Step(phi: Vec, intM: Mat, decM: Mat, r: real, dx: real): (next: Vec)
    requires Square(intM, |phi|) && Square(decM, |phi|)
    ensures |next| == |phi|
  {
    Euler(phi, Delta(phi, intM, decM, r), dx)
  }

  /** The state after the first k steps. */
  function Evolve(phi0: Vec, intM: Mat, decM: Mat, rhoInv: seq<real>, dX: seq<real>, k: nat): (phi: Vec)
    requires Square(intM, |phi0|) && Square(decM, |phi0|)
    requires k <= |rhoInv| && k <= |dX|
    ensures |phi| == |phi0|
  {
    if k == 0 then phi0
    else Step(Evolve(phi0, intM, decM, rhoInv, dX, k - 1), intM, decM, rhoInv[k - 1], dX[k - 1])
  }

  /** The checkpoint cursor (`grid_step`) and the saved states. */
  datatype Checkpoints = Checkpoints(cursor: nat, snaps: seq<Vec>)

  /** The states after 0, 1, ..., n steps. */
  function History(phi0: Vec, intM: Mat, decM: Mat, rhoInv: seq<real>, dX: seq<real>, n: nat): (h: seq<Vec>)
    requires Square(intM, |phi0|) && Square(decM, |phi0|)
    requires n <= |rhoInv| && n <= |dX|
    ensures |h| == n + 1 && forall s | 0 <= s <= n :: h[s] == Evolve(phi0, intM, decM, rhoInv, dX, s)
  {
    if n == 0 then [phi0]
    else History(phi0, intM, decM, rhoInv, dX, n - 1) + [Evolve(phi0, intM, decM, rhoInv, dX, n)]
  }

  /** The checkpoints after the first k steps of a run whose state after s
      steps is states[s]: after step s (counted from 0) the state is saved
      when the grid index under the cursor equals s. */
  function Trace(states: seq<Vec>, grid: seq<int>, k: nat): Checkpoints
    requires k < |states|
  {
    if k == 0 then Checkpoints(0, [])
    else
      var t := Trace(states, grid, k - 1);
      if Taken(grid, t.cursor, k - 1) then Checkpoints(t.cursor + 1, t.snaps + [states[k]])
      else t
  }

  /** The checkpoint test after a step. */
  predicate Taken(grid: seq<int>, cursor: nat, step: int) {
    grid != [] && cursor < |grid| && grid[cursor] == step
  }

  /** The number of steps `xrange(nsteps)` runs. */
  function Steps(nsteps: int): nat {
    if nsteps < 0 then 0 else nsteps
  }

  /** `solv_numpy`: integrate in place on the caller's array (the returned
      state is that array) and collect the checkpoints. The performance
      message divides by the step count, so zero steps raise after the
      (empty) loop. */
  method SolvNumpy(nsteps: int, dX: seq<real>, rhoInv: seq<real>, intM: Mat, decM: Mat, phi: array<real>, grid: seq<int>)
      returns (r: Result<(array<real>, seq<Vec>)>)
    requires Square(intM, phi.Length) && Square(decM, phi.Length)
    requires nsteps <= |dX| && nsteps <= |rhoInv|
    modifies phi
    ensures phi[..] == Evolve(old(phi[..]), intM, decM, rhoInv, dX, Steps(nsteps))
    ensures r.Err? <==> nsteps == 0
    ensures r.Err? ==> r.error == ZeroDivision
    ensures r.Ok? ==> r.value.0 == phi && r.value.1 == Trace(History(old(phi[..]), intM, decM, rhoInv, dX, Steps(nsteps)), grid, Steps(nsteps)).snaps
  {
    ghost var phi0 := phi[..];
    ghost var states := History(phi0, intM, decM, rhoInv, dX, Steps(nsteps));
    var gridSol: seq<Vec> := [];
    var gridStep := 0;
    var step := 0;
    while step < nsteps
      invariant 0 <= step <= Steps(nsteps)
      invariant phi[..] == Evolve(phi0, intM, decM, rhoInv, dX, step)
      invariant Trace(states, grid, step) == Checkpoints(gridStep, gridSol)
    {
      var delta := Delta(phi[..], intM, decM, rhoInv[step]);
      AddScaled(phi, delta, dX[step]);
      if grid != [] && gridStep < |grid| && grid[gridStep] == step {
        gridSol := gridSol + [phi[..]];
        gridStep := gridStep + 1;
      }
      step := step + 1;
    }
    if nsteps == 0 {
      return Err(ZeroDivision);
    }
    return Ok((phi, gridSol));
  }

  /** `phi += d * dx` on the array. */
  method AddScaled(phi: array<real>, d: Vec, dx: real)
    requires |d| == phi.Length
    modifies phi
    ensures phi[..] == Euler(old(phi[..]), d, dx)
  {
    forall i | 0 <= i < phi.Length {
      phi[i] := phi[i] + d[i] * dx;
    }
    assert phi[..] == Euler(old(phi[..]), d, dx);
  }

  // The GPU variant

  /** `alpha * m x + beta * y` */
  function Gemv(alpha: real, m: Mat, x: Vec, beta: real, y: Vec): (r: Vec)
    requires |m| == |y| && forall i | 0 <= i < |m| :: |m[i]| == |x|
    ensures |r| == |y|
  {
    var p := MatVec(m, x);
    seq(|y|, i requires 0 <= i < |y| => alpha * p[i] + beta * y[i])
  }

  /** The change of one step, as the sparse context computes it:
      `y = M_int phi`, then `y = rho_inv (M_dec phi) + y`. */
  function DeviceDelta(phi: Vec, intM: Mat, decM: Mat, r: real): (d: Vec)
    requires Square(intM, |phi|) && Square(decM, |phi|)
    ensures |d| == |phi|
  {
    Gemv(r, decM, phi, 1.0, MatVec(intM, phi))
  }

  /** The sparse product `csrmv`: `y = alpha * m x + beta * y`. */
  method Csrmv(m: Mat, x: array<real>, y: array<real>, alpha: real, beta: real)
    requires x != y && |m| == y.Length && forall i | 0 <= i < |m| :: |m[i]| == x.Length
    modifies y
    ensures y[..] == Gemv(alpha, m, old(x[..]), beta, old(y[..]))
  {
    var p := MatVec(m, x[..]);
    forall i | 0 <= i < y.Length {
      y[i] := alpha * p[i] + beta * y[i];
    }
    ghost var g := Gemv(alpha, m, old(x[..]), beta, old(y[..]));
    assert forall i | 0 <= i < y.Length :: y[i] == g[i];
  }

  /** `saxpy`: `y = a * x + y`. */
  method Saxpy(a: real, x: array<real>, y: array<real>)
    requires x != y && x.Length == y.Length
    modifies y
    ensures y[..] == Euler(old(y[..]), old(x[..]), a)
  {
    forall i | 0 <= i < y.Length {
      y[i] := a * x[i] + y[i];
    }
    ghost var e := Euler(old(y[..]), old(x[..]), a);
    assert forall i | 0 <= i < y.Length :: y[i] == old(y[i]) + x[i] * a == e[i];
  }

  /** Row i of a two-dimensional buffer. */
  function Row(a: array2<real>, i: nat): Vec
    requires i < a.Length0
    reads a
  {
    seq(a.Length1, j requires 0 <= j < a.Length1 reads a => a[i, j])
  }

  /** The buffer's rows. */
  function Rows(a: array2<real>): seq<Vec>
    reads a
  {
    seq(a.Length0, i requires 0 <= i < a.Length0 reads a => Row(a, i))
  }

  /** The first rows hold the saved states and the rest are still zero. */
  ghost predicate Filled(a: array2<real>, snaps: seq<Vec>)
    reads a
  {
    && |snaps| <= a.Length0
    && (forall j | 0 <= j < |snaps| :: Row(a, j) == snaps[j])
    && (forall j | |snaps| <= j < a.Length0 :: Row(a, j) == Zeros(a.Length1))
  }

  class CudaSparseContext {
    /** The interaction and decay matrices on the device. */
    const intM: Mat
    const decM: Mat
    /** The scratch vector of a step (`cu_delta_phi`). */
    const deltaPhi: array<real>
    /** The current state (`cu_curr_phi`). */
    var currPhi: array<real>
    /** The checkpoint buffer and the next row to write. */
    var gridSol: array2<real>
    var currSolIdx: int

    /** The state can be stepped: square matrices of the state's dimension
        and a scratch vector distinct from the state. */
    predicate Ready()
      reads this
    {
      && Square(intM, currPhi.Length) && Square(decM, currPhi.Length)
      && deltaPhi.Length == currPhi.Length && deltaPhi != currPhi
    }

    /** `__init__` with `set_matrices`: the matrices and a zero scratch
        vector of their dimension. */
    constructor(intM: Mat, decM: Mat)
      ensures this.intM == intM && this.decM == decM
      ensures fresh(deltaPhi) && deltaPhi.Length == |intM| && deltaPhi[..] == Zeros(|intM|)
      ensures fresh(currPhi) && currPhi.Length == 0
      ensures fresh(gridSol) && gridSol.Length0 == 0 && currSolIdx == 0
    {
      this.intM := intM;
      this.decM := decM;
      deltaPhi := new real[|intM|](_ => 0.0);
      currPhi := new real[0];
      gridSol := new real[0, 0];
      currSolIdx := 0;
    }

    /** `alloc_grid_sol`: a zero buffer of nsols rows of length dim, written
        from the first row. */
    method AllocGridSol(dim: nat, nsols: nat)
      modifies this
      ensures currSolIdx == 0 && fresh(gridSol)
      ensures gridSol.Length0 == nsols && gridSol.Length1 == dim && Filled(gridSol, [])
      ensures currPhi == old(currPhi)
    {
      currSolIdx := 0;
      gridSol := new real[nsols, dim]((_, _) => 0.0);
      forall j | 0 <= j < nsols ensures Row(gridSol, j) == Zeros(dim) {
        assert forall i | 0 <= i < dim :: Row(gridSol, j)[i] == 0.0;
      }
    }

    /** `dump_sol`: copy the state into the next row. */
    method DumpSol()
      requires 0 <= currSolIdx < gridSol.Length0 && gridSol.Length1 == currPhi.Length
      modifies this, gridSol
      ensures gridSol == old(gridSol) && currSolIdx == old(currSolIdx) + 1
      ensures Row(gridSol, old(currSolIdx)) == currPhi[..]
      ensures forall j | 0 <= j < gridSol.Length0 && j != old(currSolIdx) :: Row(gridSol, j) == old(Row(gridSol, j))
      ensures gridSol == old(gridSol) && currPhi == old(currPhi) && currPhi[..] == old(currPhi[..])
    {
      forall j | 0 <= j < gridSol.Length1 {
        gridSol[currSolIdx, j] := currPhi[j];
      }
      assert Row(gridSol, currSolIdx) == currPhi[..];
      currSolIdx := currSolIdx + 1;
    }

    /** `get_gridsol` */
    method GetGridsol() returns (r: seq<Vec>)
      ensures r == Rows(gridSol)
    {
      r := Rows(gridSol);
    }

    /** `set_phi`: a copy of the host vector becomes the state. */
    method SetPhi(phi: seq<real>)
      modifies this
      ensures fresh(currPhi) && currPhi[..] == phi
      ensures gridSol == old(gridSol) && currSolIdx == old(currSolIdx)
    {
      currPhi := new real[|phi|](i requires 0 <= i < |phi| => phi[i]);
    }

    /** `get_phi` */
    method GetPhi() returns (r: Vec)
      ensures r == currPhi[..]
    {
      r := currPhi[..];
    }

    /** `solve_step`: the two sparse products into the scratch vector, then
        the scaled update of the state. */
    method SolveStep(rhoInv: real, dX: real)
      requires Ready()
      modifies currPhi, deltaPhi
      ensures deltaPhi[..] == DeviceDelta(old(currPhi[..]), intM, decM, rhoInv)
      ensures currPhi[..] == Euler(old(currPhi[..]), DeviceDelta(old(currPhi[..]), intM, decM, rhoInv), dX)
    {
      ghost var x := currPhi[..];
      Csrmv(intM, currPhi, deltaPhi, 1.0, 0.0);
      ghost var a := MatVec(intM, x);
      assert deltaPhi[..] == a by {
        var y := deltaPhi[..];
        assert forall i | 0 <= i < |y| :: y[i] == 1.0 * a[i] + 0.0 * old(deltaPhi[i]) == a[i];
      }
      Csrmv(decM, currPhi, deltaPhi, rhoInv, 1.0);
      Saxpy(dX, deltaPhi, currPhi);
    }
  }

  /** `solv_CUDA_sparse`: upload the state, allocate one checkpoint row per
      grid index, step, and return the state and the whole checkpoint
      buffer; rows the cursor never reached stay zero. */
  method SolvCudaSparse(nsteps: int, dX: seq<real>, rhoInv: seq<real>, c: CudaSparseContext, phi: seq<real>, grid: seq<int>)
      returns (r: Result<(Vec, seq<Vec>)>)
    requires Square(c.intM, |phi|) && Square(c.decM, |phi|) && c.deltaPhi.Length == |phi|
    requires nsteps <= |dX| && nsteps <= |rhoInv|
    modifies c, c.deltaPhi
    ensures r.Err? <==> nsteps == 0
    ensures r.Err? ==> r.error == ZeroDivision
    ensures c.currPhi[..] == Evolve(phi, c.intM, c.decM, rhoInv, dX, Steps(nsteps))
    ensures r.Ok? ==> r.value.0 == Evolve(phi, c.intM, c.decM, rhoInv, dX, Steps(nsteps))
    ensures r.Ok? && grid == [] ==> r.value.1 == []
    ensures r.Ok? && grid != [] ==>
      var t := Trace(History(phi, c.intM, c.decM, rhoInv, dX, Steps(nsteps)), grid, Steps(nsteps));
      && |r.value.1| == |grid|
      && (forall j | 0 <= j < |grid| :: r.value.1[j] == if j < |t.snaps| then t.snaps[j] else Zeros(|phi|))
  {
    c.SetPhi(phi);
    if |grid| > 0 {
      c.AllocGridSol(|phi|, |grid|);
    }
    Run(nsteps, dX, rhoInv, c, phi, grid);
    if nsteps == 0 {
      return Err(ZeroDivision);
    }
    var out := c.GetPhi();
    if |grid| > 0 {
      var sols := c.GetGridsol();
      return Ok((out, sols));
    }
    return Ok((out, []));
  }

  /** The stepping loop of `solv_CUDA_sparse`, on an uploaded state and,
      with grid indices, a fresh zero checkpoint buffer. */
  method Run(nsteps: int, dX: seq<real>, rhoInv: seq<real>, c: CudaSparseContext, phi: seq<real>, grid: seq<int>)
    requires c.Ready() && c.currPhi[..] == phi
    requires nsteps <= |dX| && nsteps <= |rhoInv|
    requires grid != [] ==> c.gridSol.Length0 == |grid| && c.gridSol.Length1 == |phi| && c.currSolIdx == 0 && Filled(c.gridSol, [])
    modifies c, c.deltaPhi, c.currPhi, if grid != [] then {c.gridSol} else {}
    ensures c.currPhi == old(c.currPhi) && c.gridSol == old(c.gridSol) && c.Ready()
    ensures c.currPhi[..] == Evolve(phi, c.intM, c.decM, rhoInv, dX, Steps(nsteps))
    ensures grid != [] ==> Filled(c.gridSol, Trace(History(phi, c.intM, c.decM, rhoInv, dX, Steps(nsteps)), grid, Steps(nsteps)).snaps)
  {
    var gridStep := 0;
    var step := 0;
    ghost var states := History(phi, c.intM, c.decM, rhoInv, dX, Steps(nsteps));
    ghost var saved: seq<Vec> := [];
    while step < nsteps
      invariant 0 <= step <= Steps(nsteps)
      invariant c.currPhi == old(c.currPhi) && c.gridSol == old(c.gridSol) && c.Ready()
      invariant c.currPhi[..] == states[step]
      invariant Trace(states, grid, step) == Checkpoints(gridStep, saved)
      invariant |saved| == gridStep <= |grid|
      invariant grid != [] ==> c.currSolIdx == gridStep && Filled(c.gridSol, saved)
    {
      ghost var before := c.currPhi[..];
      c.SolveStep(rhoInv[step], dX[step]);
      DeviceDeltaMatches(before, c.intM, c.decM, rhoInv[step]);
      assert c.currPhi[..] == Step(before, c.intM, c.decM, rhoInv[step], dX[step]);
      HistoryStep(phi, c.intM, c.decM, rhoInv, dX, Steps(nsteps), step);
      TraceStep(states, grid, step);
      if grid != [] && gridStep < |grid| && grid[gridStep] == step {
        SaveRow(c, saved);
        saved := saved + [c.currPhi[..]];
        gridStep := gridStep + 1;
      }
      step := step + 1;
    }
  }

  /** A checkpoint of the loop of Run: the state goes into the next row. */
  method SaveRow(c: CudaSparseContext, ghost saved: seq<Vec>)
    requires c.currSolIdx == |saved| < c.gridSol.Length0 && c.gridSol.Length1 == c.currPhi.Length
    requires Filled(c.gridSol, saved)
    modifies c, c.gridSol
    ensures c.currPhi == old(c.currPhi) && c.gridSol == old(c.gridSol) && c.currPhi[..] == old(c.currPhi[..])
    ensures c.currSolIdx == |saved| + 1 && Filled(c.gridSol, saved + [c.currPhi[..]])
  {
    c.DumpSol();
    FilledStep(c.gridSol, saved, c.currPhi[..]);
  }

  /** Consecutive states of a run are one step apart. */
  lemma HistoryStep(phi0: Vec, intM: Mat, decM: Mat, rhoInv: seq<real>, dX: seq<real>, n: nat, s: nat)
    requires Square(intM, |phi0|) && Square(decM, |phi0|)
    requires s < n <= |rhoInv| && n <= |dX|
    ensures var h := History(phi0, intM, decM, rhoInv, dX, n);
      h[s + 1] == Step(h[s], intM, decM, rhoInv[s], dX[s])
  {
  }

  /** Trace one step further. */
  lemma TraceStep(states: seq<Vec>, grid: seq<int>, k: nat)
    requires k + 1 < |states|
    ensures var t := Trace(states, grid, k);
      Trace(states, grid, k + 1) == if Taken(grid, t.cursor, k) then Checkpoints(t.cursor + 1, t.snaps + [states[k + 1]]) else t
  {
  }

  /** A saved row extends the filled prefix. */
  lemma FilledStep(a: array2<real>, snaps: seq<Vec>, phi: Vec)
    requires |snaps| < a.Length0 && a.Length1 == |phi|
    requires forall j | 0 <= j < |snaps| :: Row(a, j) == snaps[j]
    requires Row(a, |snaps|) == phi
    requires forall j | |snaps| < j < a.Length0 :: Row(a, j) == Zeros(a.Length1)
    ensures Filled(a, snaps + [phi])
  {
  }

  // Properties

  /** The decay term may be scaled before or after the product. */
  lemma {:induction false} DotScaled(row: Vec, r: real, v: Vec)
    requires |row| == |v|
    ensures Dot(row, Scaled(r, v)) == r * Dot(row, v)
  {
    if v != [] {
      DotScaled(row[1..], r, v[1..]);
      ScaledTail(r, v);
      Distribute(row[0], v[0], r, Dot(row[1..], v[1..]));
    }
  }

  lemma ScaledTail(r: real, v: Vec)
    requires v != []
    ensures Scaled(r, v)[1..] == Scaled(r, v[1..])
  {
    var s, t := Scaled(r, v)[1..], Scaled(r, v[1..]);
    assert |s| == |t|;
    forall i | 0 <= i < |s| ensures s[i] == t[i] {
      assert s[i] == Scaled(r, v)[i + 1] == r * v[i + 1];
    }
  }

  lemma Distribute(a: real, b: real, r: real, t: real)
    ensures a * (r * b) + r * t == r * (a * b + t)
  {
    assert a * (r * b) == r * (a * b);
  }

  /** The sparse context computes the same change as `solv_numpy`. */
  lemma DeviceDeltaMatches(phi: Vec, intM: Mat, decM: Mat, r: real)
    requires Square(intM, |phi|) && Square(decM, |phi|)
    ensures DeviceDelta(phi, intM, decM, r) == Delta(phi, intM, decM, r)
  {
    forall i | 0 <= i < |phi|
      ensures DeviceDelta(phi, intM, decM, r)[i] == Delta(phi, intM, decM, r)[i]
    {
      DotScaled(decM[i], r, phi);
    }
  }

  /** Each saved state is the state right after the step its grid index
      names; the saved steps increase strictly and there are at most as many
      as grid indices. */
  lemma {:induction false} CheckpointsAreStates(states: seq<Vec>, grid: seq<int>, k: nat)
    requires k < |states|
    ensures var t := Trace(states, grid, k);
      && |t.snaps| == t.cursor <= |grid|
      && (forall j | 0 <= j < t.cursor :: 0 <= grid[j] < k && t.snaps[j] == states[grid[j] + 1])
      && (forall a, b | 0 <= a < b < t.cursor :: grid[a] < grid[b])
  {
    if k > 0 {
      CheckpointsAreStates(states, grid, k - 1);
    }
  }

  /** In a run the saved states are the evolved states after their steps. */
  lemma CheckpointsAreEvolved(phi0: Vec, intM: Mat, decM: Mat, rhoInv: seq<real>, dX: seq<real>, grid: seq<int>, n: nat, k: nat)
    requires Square(intM, |phi0|) && Square(decM, |phi0|)
    requires k <= n <= |rhoInv| && n <= |dX|
    ensures var t := Trace(History(phi0, intM, decM, rhoInv, dX, n), grid, k);
      && |t.snaps| <= |grid|
      && forall j | 0 <= j < |t.snaps| :: 0 <= grid[j] < k && t.snaps[j] == Evolve(phi0, intM, decM, rhoInv, dX, grid[j] + 1)
  {
    CheckpointsAreStates(History(phi0, intM, decM, rhoInv, dX, n), grid, k);
  }

  /** The length of the prefix of the grid indices below k. */
  function Below(grid: seq<int>, k: int): nat {
    if grid == [] || grid[0] >= k then 0 else 1 + Below(grid[1..], k)
  }

  /** For non-negative strictly increasing grid indices the cursor after k
      steps counts the indices below k. */
  lemma {:induction false} CursorCountsBelow(states: seq<Vec>, grid: seq<int>, k: nat)
    requires k < |states|
    requires Increasing(grid) && forall j | 0 <= j < |grid| :: grid[j] >= 0
    ensures Trace(states, grid, k).cursor == Below(grid, k)
  {
    if k > 0 {
      CursorCountsBelow(states, grid, k - 1);
      BelowStep(grid, k - 1);
    }
  }

  lemma {:induction false} BelowStep(grid: seq<int>, s: int)
    requires Increasing(grid)
    ensures Below(grid, s) <= |grid|
    ensures Below(grid, s + 1) == if Below(grid, s) < |grid| && grid[Below(grid, s)] == s then Below(grid, s) + 1 else Below(grid, s)
    ensures forall j | 0 <= j < Below(grid, s) :: grid[j] < s
    ensures Below(grid, s) < |grid| ==> grid[Below(grid, s)] >= s
  {
    if grid != [] {
      assert Increasing(grid[1..]) by {
        forall a, b | 0 <= a < b < |grid[1..]| ensures grid[1..][a] < grid[1..][b] {
          assert grid[a + 1] < grid[b + 1];
        }
      }
      BelowStep(grid[1..], s);
      if |grid| > 1 {
        assert grid[0] < grid[1];
      }
    }
  }

  /** Grid indices that are non-negative, strictly increasing and below the
      step count are all saved. */
  lemma AllCheckpointsSaved(states: seq<Vec>, grid: seq<int>, k: nat)
    requires k < |states|
    requires Increasing(grid) && forall j | 0 <= j < |grid| :: 0 <= grid[j] < k
    ensures |Trace(states, grid, k).snaps| == |grid|
  {
    CursorCountsBelow(states, grid, k);
    CheckpointsAreStates(states, grid, k);
    BelowAll(grid, k);
  }

  lemma {:induction false} BelowAll(grid: seq<int>, k: int)
    requires forall j | 0 <= j < |grid| :: grid[j] < k
    ensures Below(grid, k) == |grid|
  {
    if grid != [] {
      BelowAll(grid[1..], k);
    }
  }

  /** A grid index that is negative or not above its predecessor is never
      matched, and the cursor stops there: no later index is saved either. */
  lemma CursorStopsAtDisorder(states: seq<Vec>, grid: seq<int>, k: nat, j: nat)
    requires k < |states|
    requires j < |grid| && (grid[j] < 0 || (j > 0 && grid[j] <= grid[j - 1]))
    ensures |Trace(states, grid, k).snaps| <= j
  {
    CheckpointsAreStates(states, grid, k);
  }

  /** With no interaction and no decay the state never changes. */
  lemma {:induction false} NothingHappensWithoutMatrices(phi0: Vec, rhoInv: seq<real>, dX: seq<real>, k: nat)
    requires k <= |rhoInv| && k <= |dX|
    ensures var z := seq(|phi0|, _ => Zeros(|phi0|));
      Evolve(phi0, z, z, rhoInv, dX, k) == phi0
  {
    var z := seq(|phi0|, _ => Zeros(|phi0|));
    if k > 0 {
      NothingHappensWithoutMatrices(phi0, rhoInv, dX, k - 1);
      var d := Delta(phi0, z, z, rhoInv[k - 1]);
      ZeroDot(|phi0|, phi0);
      ZeroDot(|phi0|, Scaled(rhoInv[k - 1], phi0));
      assert forall i | 0 <= i < |phi0| :: d[i] == 0.0;
    }
  }

  lemma {:induction false} ZeroDot(n: nat, v: Vec)
    requires |v| == n
    ensures Dot(Zeros(n), v) == 0.0
  {
    if n > 0 {
      assert Zeros(n)[1..] == Zeros(n - 1);
      ZeroDot(n - 1, v[1..]);
    }
  }

  /** The n x n identity matrix. */
  function Identity(n: nat): (m: Mat)
    ensures Square(m, n)
  {
    seq(n, i requires 0 <= i < n => seq(n, j requires 0 <= j < n => if i == j then 1.0 else 0.0))
  }

  /** The n x n zero matrix. */
  function ZeroMatrix(n: nat): (m: Mat)
    ensures Square(m, n)
  {
    seq(n, _ => Zeros(n))
  }

  function Pow(b: real, k: nat): real {
    if k == 0 then 1.0 else b * Pow(b, k - 1)
  }

  /** A pure decay problem with a unit decay matrix, a constant inverse
      density r and a constant step h: the state is the initial one scaled by
      (1 + r h) to the power of the number of steps. */
  lemma {:induction false} UnitDecayLaw(phi0: Vec, rhoInv: seq<real>, dX: seq<real>, r: real, h: real, k: nat)
    requires k <= |rhoInv| && k <= |dX|
    requires forall s | 0 <= s < k :: rhoInv[s] == r && dX[s] == h
    ensures Evolve(phi0, ZeroMatrix(|phi0|), Identity(|phi0|), rhoInv, dX, k) == Scaled(Pow(1.0 + r * h, k), phi0)
  {
    if k == 0 {
      ScaledOne(phi0);
    } else {
      UnitDecayLaw(phi0, rhoInv, dX, r, h, k - 1);
      UnitDecayNext(phi0, rhoInv, dX, r, h, k);
    }
  }

  /** The induction step of the unit-decay law. */
  lemma UnitDecayNext(phi0: Vec, rhoInv: seq<real>, dX: seq<real>, r: real, h: real, k: nat)
    requires 0 < k <= |rhoInv| && k <= |dX| && rhoInv[k - 1] == r && dX[k - 1] == h
    requires Evolve(phi0, ZeroMatrix(|phi0|), Identity(|phi0|), rhoInv, dX, k - 1) == Scaled(Pow(1.0 + r * h, k - 1), phi0)
    ensures Evolve(phi0, ZeroMatrix(|phi0|), Identity(|phi0|), rhoInv, dX, k) == Scaled(Pow(1.0 + r * h, k), phi0)
  {
    var n, b := |phi0|, 1.0 + r * h;
    var p := Pow(b, k - 1);
    EvolveUnfold(phi0, ZeroMatrix(n), Identity(n), rhoInv, dX, k);
    var prev := Scaled(p, phi0);
    assert |prev| == n;
    UnitDecayStep(prev, r, h);
    ScaledTwice(b, p, phi0);
    assert Pow(b, k) == b * p;
  }

  lemma EvolveUnfold(phi0: Vec, intM: Mat, decM: Mat, rhoInv: seq<real>, dX: seq<real>, k: nat)
    requires Square(intM, |phi0|) && Square(decM, |phi0|)
    requires 0 < k <= |rhoInv| && k <= |dX|
    ensures Evolve(phi0, intM, decM, rhoInv, dX, k)
         == Step(Evolve(phi0, intM, decM, rhoInv, dX, k - 1), intM, decM, rhoInv[k - 1], dX[k - 1])
  {
  }

  lemma ScaledTwice(a: real, c: real, v: Vec)
    ensures Scaled(a, Scaled(c, v)) == Scaled(a * c, v)
  {
    forall i | 0 <= i < |v| ensures Scaled(a, Scaled(c, v))[i] == Scaled(a * c, v)[i] {
      assert a * (c * v[i]) == (a * c) * v[i];
    }
  }

  /** One step of the pure unit-decay problem scales the state by 1 + r h. */
  lemma UnitDecayStep(phi: Vec, r: real, h: real)
    ensures Step(phi, ZeroMatrix(|phi|), Identity(|phi|), r, h) == Scaled(1.0 + r * h, phi)
  {
    var n := |phi|;
    var z := ZeroMatrix(n);
    var d := Delta(phi, z, Identity(n), r);
    forall i | 0 <= i < n ensures d[i] == r * phi[i] {
      ZeroDot(n, phi);
      UnitRowDot(Identity(n)[i], i, Scaled(r, phi));
    }
    forall i | 0 <= i < n ensures Step(phi, z, Identity(n), r, h)[i] == Scaled(1.0 + r * h, phi)[i] {
      Distribute2(phi[i], r, h);
    }
  }

  lemma Distribute2(x: real, r: real, h: real)
    ensures x + (r * x) * h == x * (1.0 + r * h)
  {
  }

  /** A row with a single one at position i picks component i. */
  lemma {:induction false} UnitRowDot(row: Vec, i: int, v: Vec)
    requires |row| == |v|
    requires forall j | 0 <= j < |row| :: row[j] == if j == i then 1.0 else 0.0
    ensures Dot(row, v) == if 0 <= i < |v| then v[i] else 0.0
  {
    if v != [] {
      UnitRowDot(row[1..], i - 1, v[1..]);
    }
  }
}
