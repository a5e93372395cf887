/** Scripts that break the menu mask rule, each from a daemon's start. */
module MaskScripts {
  import opened Options
  import opened Modifiers
  import KeySpecs
  import opened Conditions
  import opened Bindings
  import opened KeyTables
  import opened Matching
  import opened Winners
  import Timers
  import opened EngineStates
  import GestureTables
  import opened KeyDowns
  import opened Worlds
  import opened MaskRule
  import opened MaskExactly

  /** A binding that swallows one key, whatever else is held. */
  function Blocking(vk: Vk): Binding {
    Binding(Combo(KeySpecs.KeyCombination([KeySpecs.Key(vk)])), DoNothing, true, None, Always, Immediate, true, false, None)
  }

  ghost predicate IsBlocking(file: seq<Binding>) {
    forall b :: b in file ==> exists vk :: b == Blocking(vk)
  }

  lemma BlockingMatches(own: Vk, press: KeyDown)
    requires press.vk < 256 && press.held[press.vk]
    ensures Candidate(Blocking(own), press) <==> own == press.vk
  {
    var combo := KeySpecs.KeyCombination([KeySpecs.Key(own)]);
    assert KeySpecs.Key(own) in combo.keys;
    assert combo.keys[0] == KeySpecs.Key(own);
  }

  /** Who wins a key-down in a list of these. */
  lemma BlockingWins(bindings: seq<Binding>, press: KeyDown)
    requires IsBlocking(bindings) && press.vk < 256 && press.held[press.vk]
    ensures match ElectOf(bindings, press)
            case Some(i) => bindings[i] == Blocking(press.vk)
            case None => Blocking(press.vk) !in bindings
  {
    hide Blocking, Candidate;
    ElectionFindsTheBest(bindings, press);
    match ElectOf(bindings, press)
    case Some(i) =>
      assert IsBest(bindings, i, CandidatesOf(press));
      assert bindings[i] in bindings;
      var own :| bindings[i] == Blocking(own);
      BlockingMatches(own, press);
    case None =>
      BlockingMatches(press.vk, press);
      assert CandidatesOf(press)(Blocking(press.vk));
      assert forall j :: 0 <= j < |bindings| ==> bindings[j] != Blocking(press.vk);
  }

  /** What the scripts keep: remapping on, this file, no owed mask, and no
      generic Alt. */
  ghost predicate IsPlain(w: World, file: seq<Binding>) {
    && w.enabled && IsBlocking(w.bindings) && (forall b :: b in file <==> b in w.bindings)
    && !w.engine.maskOwed && !w.engine.keys.active[VK_MENU]
  }

  /** A held key whose press was swallowed. */
  predicate IsSwallowed(k: KeyTable, c: Vk) {
    k.Active(c) && k.IsBlocked(c)
  }

  lemma BlockingLoads(file: seq<Binding>)
    requires IsBlocking(file)
    ensures IsBlocking(SortBySpecificity(file)) && forall b :: b in file <==> b in SortBySpecificity(file)
  {
    hide Blocking;
    SortIsStable(file, 0);
    assert forall b :: b in file <==> b in multiset(SortBySpecificity(file));
    forall b | b in SortBySpecificity(file) ensures exists vk :: b == Blocking(vk) {
      assert b in file;
    }
  }

  lemma DrainKeepsPlain(w: World, file: seq<Binding>)
    requires IsPlain(w, file)
    ensures IsPlain(Drain(w), file) && Drain(w).osDown == w.osDown && Drain(w).held == w.held
    ensures Drain(w).engine.keys.last == w.engine.keys.last
    ensures forall c: Vk :: IsSwallowed(w.engine.keys, c) ==> IsSwallowed(Drain(w).engine.keys, c)
    ensures forall c: Vk :: c !in ALL ==> Drain(w).engine.keys.Active(c) == w.engine.keys.Active(c)
  {
    hide IsBlocking;
  }

  lemma FirstIsPlain(file: seq<Binding>, foreground: ForegroundInfo, now: nat)
    requires IsBlocking(file)
    ensures var w := FirstWorld(file, foreground, now);
            && IsPlain(w, file) && w.osDown == NoFlags && w.held == NoFlags
            && w.engine.keys == EmptyTable
            && !w.engine.resync.inputAway && w.engine.resync.freshCodes == {} && w.engine.resync.notesSeen == w.notes
            && w.engine.resync.resynced == w.engine.resync.hiding
  {
    hide IsBlocking, SortBySpecificity;
    BlockingLoads(file);
    assert FirstWorld(file, foreground, now).engine.keys.active == EmptyTable.active;
  }

  /** Such a file swallows each first key-down of its keys, and no other. */
  lemma BlockedIsSwallowed(e: EngineState, vk: Vk, bindings: seq<Binding>, env: Env)
    requires IsBlocking(bindings) && vk < 256
    ensures var k := e.keys.ClearReleased(env.keyDown, vk, ALL);
            !k.active[vk] || k.last[vk] !in {Passed, Suppressed} ==>
              OnKey(e, KeyEvent(vk, Down), bindings, env).d.suppress == (Blocking(vk) in bindings)
  {
    hide KeyTable.ClearReleased, BlockerMatches, GestureTables.PressOf, GestureTables.Kept, GestureTables.EndedTaps, ElectOf, IsBlocking;
    var e1 := e.(maskOwed := false, resync := e.resync.Event(vk, true), keys := e.keys.ClearReleased(env.keyDown, vk, ALL));
    var press := KeyDown(vk, e1.keys.Press(vk).active, env.foreground);
    BlockingWins(bindings, press);
    BlockingIsPlain(bindings, press, env);
    if e1.keys.Active(vk) {
      assert e1.keys.Press(vk) == e1.keys;
      RepeatsOnlyRepeat(e1, vk, bindings, env);
    } else {
      FirstKeyDown(e1, vk, bindings, env);
    }
  }

  lemma BlockingIsPlain(bindings: seq<Binding>, press: KeyDown, env: Env)
    requires IsBlocking(bindings)
    ensures ElectedOnly(bindings, false) && NoMaskOnly(bindings) && !BlockerActs(bindings, 0, Swallow, press, env)
  {
    assert forall b :: b in bindings ==> b.kind.Combo? && b.autoBlocker.None?;
    forall j: nat | j < |bindings| ensures !IsActing(bindings[j], Swallow, press, env) {
      assert bindings[j] in bindings;
    }
  }

  /** The world after a key-down that such a file swallows or passes. */
  lemma DownStep(w: World, file: seq<Binding>, vk: Vk)
    requires IsPlain(w, file) && IsPhysical(vk)
    requires !w.engine.keys.active[vk] || w.engine.keys.last[vk] == Suppressed
    ensures var suppress, w' := DecisionFor(w, vk, Down).d.suppress, NextWorld(w, Key(vk, Down));
            && suppress == (Blocking(vk) in file || w.engine.keys.active[vk])
            && IsPlain(w', file)
            && w'.osDown == (if suppress then w.osDown else w.osDown[vk := true]) && w'.held == w.held[vk := true]
            && (suppress ==> IsSwallowed(w'.engine.keys, vk))
            && (forall c: Vk :: c != vk && IsSwallowed(w.engine.keys, c) ==> IsSwallowed(w'.engine.keys, c))
            && (forall c: Vk :: c != vk && c !in ALL ==> w'.engine.keys.Active(c) == w.engine.keys.Active(c))
  {
    hide OnKey, Drain, EngineStates.Queued, IsBlocking, Blocking;
    var env := EnvOf(w);
    BlockedIsSwallowed(w.engine, vk, w.bindings, env);
    DecidedKey(w.engine, KeyEvent(vk, Down), w.bindings, env);
    BlockingIsPlain(w.bindings, KeyDown(vk, w.engine.keys.active, w.foreground), env);
    EngineMask(w.engine, KeyEvent(vk, Down), w.bindings, env);
    DrainKeepsPlain(AfterKey(w, vk, Down), file);
  }

  /** Only `alt` of the Alt and Win keys is down in Windows. */
  ghost predicate OnlyDown(w: World, alt: Vk) {
    forall m :: m in ALT_AND_WIN ==> (w.osDown[m] <==> m == alt)
  }

  /** No Alt or Win code counts where each that is held was swallowed. */
  lemma SwallowedCountsNothing(w: World, vk: Vk, alt: Vk)
    requires vk < 256 && vk !in ALL && alt in ALT_AND_WIN && OnlyDown(w, alt) && !w.engine.keys.active[VK_MENU]
    requires w.engine.keys.active[alt] ==> w.engine.keys.last[alt] == Suppressed
    ensures AltOrWinDown(w) && !CountsAsWindows(w, vk, Down)
  {
    hide CompletedCodes;
    assert w.osDown[alt];
    forall m: Vk ensures !IsCountedKey(w, vk, Down, m) {}
  }

  lemma NotCountedIsNotExact(w: World, vk: Vk)
    requires vk < 256 && IsBlocking(w.bindings) && !w.engine.maskOwed
    requires DecisionFor(w, vk, Down).d.suppress && !CountsAsWindows(w, vk, Down)
    ensures !MaskIsExact(w, Key(vk, Down))
  {
    hide CountsAsWindows, MaskIsExact, IsBlocking, DecisionFor;
    BlockingIsPlain(w.bindings, KeyDown(vk, w.engine.keys.active, w.foreground), EnvOf(w));
    KeyIsExactlyWhenCounted(w, Key(vk, Down));
  }

  // ----- a hidden key-down -----

  /** The world before the event that goes wrong: two swallowed keys held, one
      of them an Alt or Win key that Windows has down. */
  ghost predicate IsMissing(w: World, alt: Vk, vk: Vk) {
    && w.enabled && IsBlocking(w.bindings) && !w.engine.maskOwed && !w.engine.keys.active[VK_MENU]
    && OnlyDown(w, alt) && IsSwallowed(w.engine.keys, alt) && IsSwallowed(w.engine.keys, vk)
  }

  lemma MissingMisses(w: World, alt: Vk, vk: Vk)
    requires IsMissing(w, alt, vk) && alt in ALT_AND_WIN && IsPhysical(vk) && vk !in ALL
    ensures !MaskIsExact(w, Key(vk, Down))
  {
    hide OnKey, IsBlocking;
    DecidedKey(w.engine, KeyEvent(vk, Down), w.bindings, EnvOf(w));
    SwallowedCountsNothing(w, vk, alt);
    NotCountedIsNotExact(w, vk);
  }

  /** Up and down again where neither the hook nor the daemon sees it. */
  lemma HiddenPress(w: World, file: seq<Binding>, alt: Vk, vk: Vk)
    requires IsPlain(w, file) && alt in ALT_AND_WIN && w.osDown == NoFlags && w.held[alt]
    requires IsSwallowed(w.engine.keys, alt) && IsSwallowed(w.engine.keys, vk)
    ensures IsScripted(w, UpHidden(alt, false))
    ensures var up := NextWorld(w, UpHidden(alt, false));
            IsScripted(up, DownHidden(alt, false)) && IsMissing(NextWorld(up, DownHidden(alt, false)), alt, vk)
  {
    hide IsBlocking;
  }

  /** An Alt or Win key whose press was swallowed goes up and down again where
      the hook does not see it. Windows has it down, its record still says
      swallowed, and an auto-repeat of another swallowed key asks for no mask. */
  lemma MaskMissesAnUnseenAlt(alt: Vk, vk: Vk, foreground: ForegroundInfo, now: nat)
    requires alt in ALT_AND_WIN && IsPhysical(vk) && vk !in ALL
    ensures var first := FirstWorld([Blocking(alt), Blocking(vk)], foreground, now);
            var script := [Key(alt, Down), Key(vk, Down), UpHidden(alt, false), DownHidden(alt, false)];
            && IsScript(first, script) && IsScripted(RunWorld(first, script), Key(vk, Down))
            && !MaskIsExact(RunWorld(first, script), Key(vk, Down))
  {
    hide NextWorld, FirstWorld, IsPlain, Blocking, DecisionFor, IsMissing, MaskIsExact;
    var file := [Blocking(alt), Blocking(vk)];
    var first := FirstWorld(file, foreground, now);
    assert file[0] in file && file[1] in file;
    FirstIsPlain(file, foreground, now);
    DownStep(first, file, alt);
    var w1 := NextWorld(first, Key(alt, Down));
    DownStep(w1, file, vk);
    var w2 := NextWorld(w1, Key(vk, Down));
    HiddenPress(w2, file, alt, vk);
    var w3 := NextWorld(w2, UpHidden(alt, false));
    MissingMisses(NextWorld(w3, DownHidden(alt, false)), alt, vk);
    var a, b, c, d := Key(alt, Down), Key(vk, Down), UpHidden(alt, false), DownHidden(alt, false);
    assert RunWorld(first, []) == first;
    OneMore(first, [], a, [a]);
    OneMore(first, [a], b, [a, b]);
    OneMore(first, [a, b], c, [a, b, c]);
    OneMore(first, [a, b, c], d, [a, b, c, d]);
  }


  // ----- an injected event -----

  lemma InjectedPress(w: World, file: seq<Binding>, alt: Vk, vk: Vk)
    requires IsPlain(w, file) && alt in ALT_AND_WIN && w.osDown == NoFlags && vk !in ALL
    requires IsSwallowed(w.engine.keys, alt) && IsSwallowed(w.engine.keys, vk)
    ensures IsScripted(w, DaemonInjects(alt, Down)) && IsMissing(NextWorld(w, DaemonInjects(alt, Down)), alt, vk)
  {
    hide IsBlocking, Drain, AfterKey, ResetWorld, AfterSignal, AfterAdvance, ForgetAll, NoteHiddenInput;
    var tracked := TrackInjected(w.engine, EngineStates.KeyEvent(alt, Down));
    assert tracked.keys == w.engine.keys;
    var injected := w.(engine := tracked, osDown := w.osDown[alt := true], held := w.held[alt := true]);
    DrainKeepsPlain(injected, file);
  }

  /** The daemon's own key-down of an Alt or Win key whose press it swallowed. */
  lemma MaskMissesAnInjectedAlt(alt: Vk, vk: Vk, foreground: ForegroundInfo, now: nat)
    requires alt in ALT_AND_WIN && IsPhysical(vk) && vk !in ALL
    ensures var first := FirstWorld([Blocking(alt), Blocking(vk)], foreground, now);
            var script := [Key(alt, Down), Key(vk, Down), DaemonInjects(alt, Down)];
            && IsScript(first, script) && IsScripted(RunWorld(first, script), Key(vk, Down))
            && !MaskIsExact(RunWorld(first, script), Key(vk, Down))
  {
    hide NextWorld, FirstWorld, IsPlain, Blocking, DecisionFor, IsMissing, MaskIsExact;
    var file := [Blocking(alt), Blocking(vk)];
    var first := FirstWorld(file, foreground, now);
    assert file[0] in file && file[1] in file;
    FirstIsPlain(file, foreground, now);
    DownStep(first, file, alt);
    var w1 := NextWorld(first, Key(alt, Down));
    DownStep(w1, file, vk);
    var w2 := NextWorld(w1, Key(vk, Down));
    InjectedPress(w2, file, alt, vk);
    MissingMisses(NextWorld(w2, DaemonInjects(alt, Down)), alt, vk);
    var a, b, c := Key(alt, Down), Key(vk, Down), DaemonInjects(alt, Down);
    assert RunWorld(first, []) == first;
    OneMore(first, [], a, [a]);
    OneMore(first, [a], b, [a, b]);
    OneMore(first, [a, b], c, [a, b, c]);
  }

  // ----- a lock -----

  /** Locked with an Alt or Win key down: the engine holds nothing. */
  lemma LockForgets(w: World, file: seq<Binding>)
    requires IsPlain(w, file)
    ensures IsScripted(w, Signal(SessionLocked))
    ensures var w' := NextWorld(w, Signal(SessionLocked));
            IsPlain(w', file) && w'.osDown == w.osDown && w'.engine.keys.active == NoFlags
  {
    hide IsBlocking, Timers.RetainLive;
  }

  /** An Alt or Win key whose key-down was seen and passed is still down when
      the session is locked. The reset frees it in the engine alone, and the
      next swallowed key-down asks for no mask. */
  lemma MaskMissesAHeldAltAfterALock(alt: Vk, vk: Vk, foreground: ForegroundInfo, now: nat)
    requires alt in ALT_AND_WIN && IsPhysical(vk) && vk !in ALL
    ensures var first := FirstWorld([Blocking(vk)], foreground, now);
            var script := [Key(alt, Down), Signal(SessionLocked)];
            && IsScript(first, script) && IsScripted(RunWorld(first, script), Key(vk, Down))
            && !MaskIsExact(RunWorld(first, script), Key(vk, Down))
  {
    hide NextWorld, FirstWorld, DecisionFor, MaskIsExact, CountsAsWindows, IsBlocking;
    var file := [Blocking(vk)];
    var first := FirstWorld(file, foreground, now);
    FileOfOne(alt, vk);
    FirstIsPlain(file, foreground, now);
    DownStep(first, file, alt);
    var w1 := NextWorld(first, Key(alt, Down));
    LockForgets(w1, file);
    var w2 := NextWorld(w1, Signal(SessionLocked));
    DownStep(w2, file, vk);
    SwallowedCountsNothing(w2, vk, alt);
    NotCountedIsNotExact(w2, vk);
    var a, b := Key(alt, Down), Signal(SessionLocked);
    assert RunWorld(first, []) == first;
    OneMore(first, [], a, [a]);
    OneMore(first, [a], b, [a, b]);
  }

  lemma FileOfOne(alt: Vk, vk: Vk)
    ensures IsBlocking([Blocking(vk)]) && Blocking(vk) in [Blocking(vk)]
    ensures alt != vk ==> Blocking(alt) !in [Blocking(vk)]
  {
    assert Blocking(alt).kind.combo.keys[0] == KeySpecs.Key(alt);
    assert Blocking(vk).kind.combo.keys[0] == KeySpecs.Key(vk);
  }

  // ----- a hidden key-up -----

  /** A noticed hidden key-down of a modifier is read; its key-up is not. */
  lemma HiddenHold(w: World, file: seq<Binding>, alt: Vk)
    requires IsPlain(w, file) && alt in ALT_AND_WIN && w.osDown == NoFlags && w.held == NoFlags && w.engine.keys == EmptyTable
    requires !w.engine.resync.inputAway && w.engine.resync.freshCodes == {} && w.engine.resync.notesSeen == w.notes
    requires w.engine.resync.resynced == w.engine.resync.hiding
    ensures IsScripted(w, DownHidden(alt, true))
    ensures var down := NextWorld(w, DownHidden(alt, true));
            && IsScripted(down, UpHidden(alt, false))
            && var up := NextWorld(down, UpHidden(alt, false));
               && IsPlain(up, file) && up.osDown == NoFlags
               && up.engine.keys.active[alt] && up.engine.keys.last[alt] == Unknown
  {
    hide IsBlocking, AfterKey, ResetWorld, AfterSignal, AfterAdvance, ForgetAll, TrackInjected, SortBySpecificity;
    var hidden := w.(held := w.held[alt := true], osDown := w.osDown[alt := true], presses := w.presses[alt := Some(false)], notes := w.notes + 1);
    DrainKeepsPlain(hidden, file);
    assert EnvOf(hidden).keyDown(alt);
    assert alt in hidden.engine.resync.Plan(hidden.notes).1;
  }

  /** A repeat with no record: the file swallows it, and it counts itself. */
  lemma RepeatCountsItself(w: World, alt: Vk)
    requires w.enabled && IsBlocking(w.bindings) && !w.engine.maskOwed && w.osDown == NoFlags
    requires alt in ALT_AND_WIN && w.engine.keys.active[alt] && w.engine.keys.last[alt] == Unknown
    requires Blocking(alt) in w.bindings
    ensures !MaskIsExact(w, Key(alt, Down))
  {
    hide OnKey, IsBlocking, Blocking;
    BlockedIsSwallowed(w.engine, alt, w.bindings, EnvOf(w));
    NotCountedIsNotExact(w, alt);
  }

  /** And the mask can be asked for with nothing down: an Alt or Win key goes
      down unseen, is read, and goes up unnoticed. The engine takes its next
      key-down for an auto-repeat with no record, swallows it, and counts it. */
  lemma MaskCountsAnUnseenRelease(alt: Vk, foreground: ForegroundInfo, now: nat)
    requires alt in ALT_AND_WIN
    ensures var first := FirstWorld([Blocking(alt)], foreground, now);
            var script := [DownHidden(alt, true), UpHidden(alt, false)];
            && IsScript(first, script) && IsScripted(RunWorld(first, script), Key(alt, Down))
            && !AltOrWinDown(RunWorld(first, script))
            && !MaskIsExact(RunWorld(first, script), Key(alt, Down))
  {
    hide NextWorld, FirstWorld, MaskIsExact, Blocking;
    var file := [Blocking(alt)];
    var first := FirstWorld(file, foreground, now);
    assert file[0] in file;
    FirstIsPlain(file, foreground, now);
    HiddenHold(first, file, alt);
    var w1 := NextWorld(first, DownHidden(alt, true));
    RepeatCountsItself(NextWorld(w1, UpHidden(alt, false)), alt);
    var a, b := DownHidden(alt, true), UpHidden(alt, false);
    assert RunWorld(first, []) == first;
    OneMore(first, [], a, [a]);
    OneMore(first, [a], b, [a, b]);
  }
}
