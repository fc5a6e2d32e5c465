/** One pass repairs what it can, a second finds nothing more to do, and cooldown spaces the rewrites. */
module DriftLaws {
  import opened Numeric
  import opened RouterModel
  import opened DriftModel

  /** Numbers drift exactly when they differ by more than the larger of the two tolerances. */
  lemma DriftIff(desired: real, actual: real, tol: Tolerance)
    requires tol.absolute >= 0.0 && tol.relative >= 0.0
    ensures IsDrift(Num(desired), Num(actual), tol) <==>
      Abs(actual - desired) > Max(tol.absolute, tol.relative * Abs(desired))
  {
    var diff, size := Abs(actual - desired), Abs(desired);
    MulMono(0.0, size, tol.relative);
    if size > 0.0 {
      QuotientWithin(diff, size, tol.relative);
    }
  }

  lemma QuotientWithin(x: real, k: real, y: real)
    requires k > 0.0
    ensures x / k <= y <==> x <= y * k
  {
    MulMono(x / k, y, k);
    DivMono(x, y * k, k);
    assert x / k * k == x && y * k / k == y;
  }

  lemma NoDriftFromDesired(v: Value, tol: Tolerance)
    requires tol.absolute >= 0.0
    ensures !IsDrift(v, v, tol)
  {}

  lemma RepairedIsClose(cfg: Config, w: World, w': World, k: Key)
    requires cfg.Valid() && w'.table == w.table && Tracked(w, k)
    requires Cached(w', k) == Some(w.table[k.device][k.point])
    ensures !Drifted(cfg, w', k)
  {
    NoDriftFromDesired(w.table[k.device][k.point], cfg.ToleranceOf(k.device));
  }

  lemma KeptIsSame(cfg: Config, w: World, w': World, k: Key)
    requires w'.table == w.table && SameStatus(w, w') && Cached(w', k) == Cached(w, k)
    ensures Drifted(cfg, w', k) <==> Drifted(cfg, w, k)
  {}

  /** Without cooldown, after a pass every tracked, responsive, read point is within tolerance, or the device refused
      the rewrite or may not be written; the table is unchanged. */
  lemma PassRepairs(env: Accepts, cfg: Config, w: World, last: map<Key, real>, now: real,
                    fixed: set<Key>, tried: map<Key, nat>, w': World, last': map<Key, real>, end: real, k: Key)
    requires cfg.Valid() && cfg.minInterval == 0.0 && Pass(env, cfg, w, last, now, fixed, tried, w', last', end)
    requires Tracked(w', k) && Read(w', k)
    ensures w'.table == w.table
    ensures !Drifted(cfg, w', k) || Refused(env, w, tried, k)
  {
    hide IsDrift, Refused, Config.ToleranceOf;
    if k in fixed {
      RepairedIsClose(cfg, w, w', k);
    } else {
      KeptIsSame(cfg, w, w', k);
    }
  }

  /** A pass right after another rewrites only points the first could not. */
  lemma SecondPassIdle(env: Accepts, cfg: Config, w: World, last: map<Key, real>, now: real,
                       fixed: set<Key>, tried: map<Key, nat>, w': World, last': map<Key, real>, end: real,
                       now': real, fixed': set<Key>, tried': map<Key, nat>, w'': World, last'': map<Key, real>,
                       end': real)
    requires cfg.Valid()
    requires Pass(env, cfg, w, last, now, fixed, tried, w', last', end)
    requires Pass(env, cfg, w', last', now', fixed', tried', w'', last'', end')
    ensures fixed' !! fixed
    ensures cfg.minInterval == 0.0 ==> forall k :: k in fixed' ==> Refused(env, w, tried, k)
  {
    hide IsDrift, Refused, Config.ToleranceOf, Cached;
    forall k | k in fixed' ensures k !in fixed && (cfg.minInterval == 0.0 ==> Refused(env, w, tried, k)) {
      if k in fixed {
        RepairedIsClose(cfg, w, w', k);
        assert false;
      }
      KeptIsSame(cfg, w, w', k);
    }
  }

  // ---- Cooldown over many passes ----

  /** One pass of a run: the world it found, when it began and ended, what it repaired, and the cooldown table it
      found. The worlds of different passes need not be related. */
  datatype PassRecord = PassRecord(
    w: World, last: map<Key, real>, now: real, fixed: set<Key>, tried: map<Key, nat>, w': World, end: real)

  ghost predicate Passes(env: Accepts, cfg: Config, ps: seq<PassRecord>, final: map<Key, real>) {
    && (forall i :: 0 <= i < |ps| ==>
          Pass(env, cfg, ps[i].w, ps[i].last, ps[i].now, ps[i].fixed, ps[i].tried, ps[i].w',
               LastAfter(ps, final, i), ps[i].end))
    && (forall i :: 0 <= i < |ps| - 1 ==> ps[i].end <= ps[i + 1].now)
  }

  function LastAfter(ps: seq<PassRecord>, final: map<Key, real>, i: nat): map<Key, real>
    requires i < |ps|
  {
    if i + 1 < |ps| then ps[i + 1].last else final
  }

  lemma PassFacts(env: Accepts, cfg: Config, w: World, last: map<Key, real>, now: real,
                  fixed: set<Key>, tried: map<Key, nat>, w': World, last': map<Key, real>, end: real, k: Key)
    requires Pass(env, cfg, w, last, now, fixed, tried, w', last', end) && cfg.minInterval > 0.0
    ensures now <= end
    ensures k in fixed ==> k in last' && now <= last'[k] <= end && !Cooling(cfg, last, k, now)
    ensures k !in fixed ==> (k in last' <==> k in last) && (k in last ==> last'[k] == last[k])
  {
    hide Drifted, Refused, SameStatus, Cached, Cooling;
  }

  /** A rewrite time stays in the cooldown table, or a later one replaces it. */
  lemma {:induction false} RewriteRemembered(env: Accepts, cfg: Config, ps: seq<PassRecord>, final: map<Key, real>,
                                             i: nat, j: nat, k: Key)
    requires Passes(env, cfg, ps, final) && cfg.minInterval > 0.0 && i < j < |ps| && k in ps[i].fixed
    ensures k in LastAfter(ps, final, i) && k in ps[j].last
    ensures LastAfter(ps, final, i)[k] <= ps[j].last[k] <= ps[j - 1].end
    decreases j
  {
    hide Pass;
    PassFacts(env, cfg, ps[i].w, ps[i].last, ps[i].now, ps[i].fixed, ps[i].tried, ps[i].w',
              LastAfter(ps, final, i), ps[i].end, k);
    if i < j - 1 {
      RewriteRemembered(env, cfg, ps, final, i, j - 1, k);
      var p := ps[j - 1];
      PassFacts(env, cfg, p.w, p.last, p.now, p.fixed, p.tried, p.w', LastAfter(ps, final, j - 1), p.end, k);
      assert ps[j - 2].end <= ps[j - 2 + 1].now;
    }
  }

  /** Two successful rewrites of a point are at least the cooldown interval apart, whatever happens in between. */
  lemma RewritesSpaced(env: Accepts, cfg: Config, ps: seq<PassRecord>, final: map<Key, real>, i: nat, j: nat, k: Key)
    requires Passes(env, cfg, ps, final) && cfg.minInterval > 0.0
    requires i < j < |ps| && k in ps[i].fixed && k in ps[j].fixed
    ensures k in LastAfter(ps, final, i) && k in LastAfter(ps, final, j)
    ensures LastAfter(ps, final, j)[k] - LastAfter(ps, final, i)[k] >= cfg.minInterval
  {
    hide Pass;
    RewriteRemembered(env, cfg, ps, final, i, j, k);
    PassFacts(env, cfg, ps[j].w, ps[j].last, ps[j].now, ps[j].fixed, ps[j].tried, ps[j].w',
              LastAfter(ps, final, j), ps[j].end, k);
  }
}
