/** Thinking configurations: conversion between levels and budgets, clamping, and validation against
    what a model supports. */
module Thinking {
  import opened Collections
  import opened Text

  datatype Mode = BudgetMode | LevelMode | NoneMode | AutoMode
  datatype Config = Config(mode: Mode, budget: int, level: string)

  /** A model's budget range and level names; a model without Support does not think. */
  datatype Support = Support(min: int, max: int, zeroAllowed: bool, dynamicAllowed: bool, levels: seq<string>)

  datatype Error = NotSupported | UnknownLevel | LevelNotSupported | BudgetOutOfRange
  datatype Result = Ok(config: Config) | Err(error: Error)

  datatype Capability = Neither | BudgetOnly | LevelOnly | Hybrid

  function DetectModelCapability(s: Support): Capability {
    var hasBudget := s.min > 0 || s.max > 0;
    if hasBudget && s.levels != [] then Hybrid
    else if hasBudget then BudgetOnly
    else if s.levels != [] then LevelOnly
    else Neither
  }

  // ----- levels -----

  const STANDARD_LEVELS := ["minimal", "low", "medium", "high", "xhigh", "max"]

  /** The position of a level among the standard ones, in any case; -1 if it is none of them. */
  function LevelIndex(level: string): (i: int)
    ensures -1 <= i < 6
    ensures i >= 0 ==> ToLower(level) == STANDARD_LEVELS[i]
  {
    var l := ToLower(level);
    if l == "minimal" then 0 else if l == "low" then 1 else if l == "medium" then 2
    else if l == "high" then 3 else if l == "xhigh" then 4 else if l == "max" then 5 else -1
  }

  function ConvertLevelToBudget(level: string): Option<int> {
    var l := ToLower(level);
    if l == "none" then Some(0) else if l == "auto" then Some(-1)
    else if l == "minimal" then Some(512) else if l == "low" then Some(1024)
    else if l == "medium" then Some(8192) else if l == "high" then Some(24576)
    else if l == "xhigh" then Some(32768) else if l == "max" then Some(128000)
    else None
  }

  function ConvertBudgetToLevel(budget: int): Option<string> {
    if budget < -1 then None
    else if budget == -1 then Some("auto")
    else if budget == 0 then Some("none")
    else if budget <= 512 then Some("minimal")
    else if budget <= 1024 then Some("low")
    else if budget <= 8192 then Some("medium")
    else if budget <= 24576 then Some("high")
    else Some("xhigh")
  }

  predicate IsLevelSupported(level: string, supported: seq<string>) {
    exists i :: 0 <= i < |supported| && EqualFold(level, TrimSpace(supported[i]))
  }

  function Distance(a: int, b: int): nat {
    if a < b then b - a else a - b
  }

  predicate Closer(pos: int, a: int, b: int) {
    Distance(pos, a) < Distance(pos, b) || (Distance(pos, a) == Distance(pos, b) && a < b)
  }

  /** The supported levels by their places in the standard order, -1 for others. */
  function Places(supported: seq<string>): (r: seq<int>)
    ensures |r| == |supported|
    ensures forall i :: 0 <= i < |r| ==> -1 <= r[i] < 6
  {
    seq(|supported|, i requires 0 <= i < |supported| => LevelIndex(TrimSpace(supported[i])))
  }

  /** The place among the given ones that is nearest to pos, the lower one on a tie. */
  function Nearest(pos: int, places: seq<int>): (best: int)
    requires forall i :: 0 <= i < |places| ==> -1 <= places[i] < 6
    ensures -1 <= best < 6
  {
    if places == [] then -1
    else
      var best, idx := Nearest(pos, places[..|places| - 1]), places[|places| - 1];
      if idx != -1 && (best == -1 || Closer(pos, idx, best)) then idx else best
  }

  function Clamped(level: string, supported: seq<string>): string {
    var pos := LevelIndex(level);
    if supported == [] || IsLevelSupported(level, supported) || pos == -1 then level
    else
      var best := Nearest(pos, Places(supported));
      if best == -1 then level else STANDARD_LEVELS[best]
  }

  method ClampLevel(level: string, supported: seq<string>) returns (clamped: string)
    ensures clamped == Clamped(level, supported)
  {
    if |supported| == 0 || IsLevelSupported(level, supported) {
      return level;
    }
    var pos := LevelIndex(level);
    if pos == -1 {
      return level;
    }
    var bestIdx, bestDist := -1, 7;
    for i := 0 to |supported|
      invariant bestIdx == Nearest(pos, Places(supported)[..i])
      invariant bestDist == if bestIdx == -1 then 7 else Distance(pos, bestIdx)
    {
      assert Places(supported)[..i + 1][..i] == Places(supported)[..i];
      var idx := LevelIndex(TrimSpace(supported[i]));
      if idx != -1 {
        var dist := Distance(pos, idx);
        if dist < bestDist || (dist == bestDist && idx < bestIdx) {
          bestIdx, bestDist := idx, dist;
        }
      }
    }
    assert Places(supported)[..|supported|] == Places(supported);
    if bestIdx >= 0 {
      return STANDARD_LEVELS[bestIdx];
    }
    clamped := level;
  }

  /** a is as near to pos as b, and is not the higher one if both are equally near. */
  predicate NoFarther(pos: int, a: int, b: int) {
    var x, y := if a < pos then pos - a else a - pos, if b < pos then pos - b else b - pos;
    x < y || (x == y && a <= b)
  }

  /** Nearest finds a place if there is one, and none is closer. */
  lemma {:induction false} NearestIsNearest(pos: int, places: seq<int>)
    requires forall i :: 0 <= i < |places| ==> -1 <= places[i] < 6
    ensures var best := Nearest(pos, places);
      && (best == -1 <==> forall i :: 0 <= i < |places| ==> places[i] == -1)
      && (best != -1 ==> best in places)
      && (best != -1 ==> forall i :: 0 <= i < |places| && places[i] != -1 ==> NoFarther(pos, best, places[i]))
  {
    if places == [] {
    } else {
      var init := places[..|places| - 1];
      NearestIsNearest(pos, init);
      assert forall i :: 0 <= i < |init| ==> init[i] == places[i];
    }
  }

  /** A clamped level is supported whenever the model supports any standard level or the level itself;
      an unsupported non-standard level is left alone. */
  lemma ClampedSupported(level: string, supported: seq<string>)
    requires supported != []
    ensures IsLevelSupported(Clamped(level, supported), supported) <==>
      IsLevelSupported(level, supported) ||
      (LevelIndex(level) != -1 && exists i :: 0 <= i < |supported| && LevelIndex(TrimSpace(supported[i])) != -1)
  {
    var pos := LevelIndex(level);
    if !IsLevelSupported(level, supported) && pos != -1 {
      NearestIsNearest(pos, Places(supported));
      assert forall i :: 0 <= i < |supported| ==> Places(supported)[i] == LevelIndex(TrimSpace(supported[i]));
      var best := Nearest(pos, Places(supported));
      if best != -1 {
        var i :| 0 <= i < |supported| && LevelIndex(TrimSpace(supported[i])) == best;
        ToLowerIdempotent(TrimSpace(supported[i]));
        assert EqualFold(STANDARD_LEVELS[best], TrimSpace(supported[i]));
      }
    }
  }

  // ----- provider families -----

  predicate IsGeminiFamily(provider: string) {
    provider == "gemini" || provider == "gemini-cli" || provider == "antigravity"
  }

  predicate IsOpenAIFamily(provider: string) {
    provider == "openai" || provider == "openai-response" || provider == "codex"
  }

  predicate IsSameProviderFamily(from: string, to: string) {
    from == to || (IsGeminiFamily(from) && IsGeminiFamily(to)) || (IsOpenAIFamily(from) && IsOpenAIFamily(to))
  }

  // ----- budgets -----

  function ClampBudget(value: int, s: Support): int {
    if value == -1 then value
    else if value == 0 && !s.zeroAllowed then s.min
    else if s.min == 0 && s.max == 0 then value
    else if value < s.min then (if value == 0 && s.zeroAllowed then 0 else s.min)
    else if value > s.max then s.max
    else value
  }

  /** Go's division truncates toward zero. */
  function Half(x: int): int {
    if x >= 0 then x / 2 else -(-x / 2)
  }

  function ConvertAutoToMidRange(c: Config, s: Support): Config {
    if s.levels != [] && s.min == 0 && s.max == 0 then Config(LevelMode, 0, "medium")
    else
      var mid := Half(s.min + s.max);
      if mid <= 0 && s.zeroAllowed then c.(mode := NoneMode, budget := 0)
      else if mid <= 0 then c.(mode := BudgetMode, budget := s.min)
      else c.(mode := BudgetMode, budget := mid)
  }

  // ----- validation, stage by stage -----

  /** Bring the configuration to the format the model has; the flag tells a budget derived from a level. */
  function Convert(c: Config, s: Support): (Result, bool) {
    match DetectModelCapability(s)
    case BudgetOnly =>
      if c.mode != LevelMode || c.level == "auto" then (Ok(c), false)
      else
        var b := ConvertLevelToBudget(c.level);
        if b == None then (Err(UnknownLevel), false) else (Ok(Config(BudgetMode, b.value, "")), true)
    case LevelOnly =>
      if c.mode != BudgetMode then (Ok(c), false)
      else
        var l := ConvertBudgetToLevel(c.budget);
        if l == None then (Err(UnknownLevel), false) else (Ok(Config(LevelMode, 0, Clamped(l.value, s.levels))), false)
    case _ => (Ok(c), false)
  }

  /** The special values none, auto and zero become modes. */
  function Canonical(c: Config): Config {
    if c.mode == LevelMode && c.level == "none" then Config(NoneMode, 0, "")
    else if c.mode == LevelMode && c.level == "auto" then Config(AutoMode, -1, "")
    else if c.mode == BudgetMode && c.budget == 0 then Config(NoneMode, 0, "")
    else c
  }

  function CheckLevel(c: Config, s: Support, allowClamp: bool): Result {
    if s.levels == [] || c.mode != LevelMode || IsLevelSupported(c.level, s.levels) then Ok(c)
    else
      var level := if allowClamp then Clamped(c.level, s.levels) else c.level;
      if IsLevelSupported(level, s.levels) then Ok(c.(level := level)) else Err(LevelNotSupported)
  }

  predicate OutOfRange(c: Config, s: Support) {
    c.mode == BudgetMode && (s.min != 0 || s.max != 0) &&
    (c.budget < s.min || c.budget > s.max || (c.budget == 0 && !s.zeroAllowed))
  }

  function Settle(c0: Config, s: Support, to: string): Config {
    var c := if c0.mode == AutoMode && !s.dynamicAllowed then ConvertAutoToMidRange(c0, s) else c0;
    if c.mode == NoneMode && to == "claude" then c.(budget := 0, level := "")
    else
      var d := if c.mode == LevelMode then c else c.(budget := ClampBudget(c.budget, s));
      if d.mode == NoneMode && d.budget > 0 && s.levels != [] then d.(level := s.levels[0]) else d
  }

  function AllowClamp(s: Support, from: string, to: string): bool {
    DetectModelCapability(s) in {LevelOnly, Hybrid} && !IsSameProviderFamily(from, to)
  }

  function StrictBudget(from: string, to: string, fromSuffix: bool): bool {
    !fromSuffix && from != "" && IsSameProviderFamily(from, to)
  }

  /** Validation with the clamping policies already decided. */
  function ValidateWith(c: Config, s: Support, to: string, allowClamp: bool, strict: bool): Result {
    var (converted, derived) := Convert(c, s);
    if converted.Err? then converted
    else
      var checked := CheckLevel(Canonical(converted.config), s, allowClamp);
      if checked.Err? then checked
      else if strict && !derived && OutOfRange(checked.config, s) then Err(BudgetOutOfRange)
      else Ok(Settle(checked.config, s, to))
  }

  function Normal(format: string): string {
    ToLower(TrimSpace(format))
  }

  function Validate(c: Config, support: Option<Support>, fromFormat: string, toFormat: string,
          fromSuffix: bool): Result {
    var from, to := Normal(fromFormat), Normal(toFormat);
    match support
    case None => if c.mode != NoneMode then Err(NotSupported) else Ok(c)
    case Some(s) => ValidateWith(c, s, to, AllowClamp(s, from, to), StrictBudget(from, to, fromSuffix))
  }

  method ValidateConfig(c: Config, support: Option<Support>, fromFormat: string, toFormat: string, fromSuffix: bool)
    returns (result: Result)
    ensures result == Validate(c, support, fromFormat, toFormat, fromSuffix)
  {
    hide Clamped, IsLevelSupported, ConvertLevelToBudget, ConvertBudgetToLevel, ToLower, TrimSpace;
    hide IsSameProviderFamily, Settle;
    var from, to := ToLower(TrimSpace(fromFormat)), ToLower(TrimSpace(toFormat));
    if support == None {
      if c.mode != NoneMode {
        return Err(NotSupported);
      }
      return Ok(c);
    }
    var s := support.value;
    var config := c;
    var capability := DetectModelCapability(s);
    var allowClampUnsupported := (capability == LevelOnly || capability == Hybrid) && !IsSameProviderFamily(from, to);
    var strictBudget := !fromSuffix && from != "" && IsSameProviderFamily(from, to);
    var budgetDerivedFromLevel := false;
    match capability {
      case BudgetOnly =>
        if config.mode == LevelMode && config.level != "auto" {
          var budget := ConvertLevelToBudget(config.level);
          if budget == None {
            return Err(UnknownLevel);
          }
          config := config.(mode := BudgetMode, budget := budget.value, level := "");
          budgetDerivedFromLevel := true;
        }
      case LevelOnly =>
        if config.mode == BudgetMode {
          var level := ConvertBudgetToLevel(config.budget);
          if level == None {
            return Err(UnknownLevel);
          }
          var clamped := ClampLevel(level.value, s.levels);
          config := config.(mode := LevelMode, level := clamped, budget := 0);
        }
      case _ =>
    }
    assert config == Convert(c, s).0.config && budgetDerivedFromLevel == Convert(c, s).1;
    config := Canonicalise(config);
    if |s.levels| > 0 && config.mode == LevelMode {
      if !IsLevelSupported(config.level, s.levels) {
        if allowClampUnsupported {
          var clamped := ClampLevel(config.level, s.levels);
          config := config.(level := clamped);
        }
        if !IsLevelSupported(config.level, s.levels) {
          return Err(LevelNotSupported);
        }
      }
    }
    if strictBudget && config.mode == BudgetMode && !budgetDerivedFromLevel {
      if s.min != 0 || s.max != 0 {
        if config.budget < s.min || config.budget > s.max || (config.budget == 0 && !s.zeroAllowed) {
          return Err(BudgetOutOfRange);
        }
      }
    }
    config := SettleConfig(config, s, to);
    result := Ok(config);
  }

  method Canonicalise(c: Config) returns (config: Config)
    ensures config == Canonical(c)
  {
    config := c;
    if config.mode == LevelMode && config.level == "none" {
      config := Config(NoneMode, 0, "");
    }
    if config.mode == LevelMode && config.level == "auto" {
      config := Config(AutoMode, -1, "");
    }
    if config.mode == BudgetMode && config.budget == 0 {
      config := config.(mode := NoneMode, level := "");
    }
  }

  method SettleConfig(c: Config, s: Support, to: string) returns (config: Config)
    ensures config == Settle(c, s, to)
  {
    config := c;
    if config.mode == AutoMode && !s.dynamicAllowed {
      config := ConvertAutoToMidRange(config, s);
    }
    if config.mode == NoneMode && to == "claude" {
      config := config.(budget := 0, level := "");
    } else {
      if config.mode in {BudgetMode, AutoMode, NoneMode} {
        config := config.(budget := ClampBudget(config.budget, s));
      }
      if config.mode == NoneMode && config.budget > 0 && |s.levels| > 0 {
        config := config.(level := s.levels[0]);
      }
    }
  }

  // ----- what validation guarantees -----

  /** A range in order, and budgets or levels to choose from. */
  predicate ProperSupport(s: Support) {
    0 <= s.min <= s.max && (s.max > 0 || s.levels != [])
  }

  /** ModeNone goes with budget 0 and ModeAuto with -1, as the type promises. */
  predicate ProperConfig(c: Config) {
    (c.mode == NoneMode ==> c.budget == 0) && (c.mode == AutoMode ==> c.budget == -1)
  }

  /** The model takes the configuration as it stands. */
  predicate Accepts(s: Support, c: Config) {
    match c.mode
    case BudgetMode => s.max > 0 && s.min <= c.budget <= s.max
    case LevelMode => IsLevelSupported(c.level, s.levels)
    case AutoMode => s.dynamicAllowed && c.budget == -1
    case NoneMode => c.budget == 0 || c.budget == s.min
  }

  /** The configuration asks for automatic thinking. */
  predicate AsksAuto(c: Config, s: Support) {
    c.mode == AutoMode || (c.mode == LevelMode && c.level == "auto") ||
    (c.mode == BudgetMode && c.budget == -1 && DetectModelCapability(s) == LevelOnly)
  }

  /** Automatic thinking turned into "medium" on a level-only model that does not list it. */
  predicate MediumUnlisted(c: Config, s: Support) {
    AsksAuto(c, s) && !s.dynamicAllowed && DetectModelCapability(s) == LevelOnly &&
      !IsLevelSupported("medium", s.levels)
  }

  /** The budget -1 under ModeBudget, given as such or as "AUTO" in other than lower case. */
  predicate AutoAsBudget(c: Config, s: Support) {
    s.max > 0 &&
    ((c.mode == BudgetMode && c.budget == -1) ||
     (c.mode == LevelMode && s.levels == [] && c.level != "auto" && ToLower(c.level) == "auto"))
  }

  /** A configuration that has passed the level check. */
  predicate Ready(c: Config, s: Support) {
    && ProperConfig(c)
    && (c.mode == BudgetMode ==> c.budget != 0 && s.max > 0)
    && (c.mode == LevelMode ==> IsLevelSupported(c.level, s.levels) && c.level != "none" && c.level != "auto")
  }

  lemma SpecialNames()
    ensures ToLower("none") == "none" && ToLower("auto") == "auto"
    ensures LevelIndex("none") == -1 && LevelIndex("auto") == -1
  {
    assert "none" == ['n'] + (['o'] + (['n'] + (['e'] + [])));
    assert "auto" == ['a'] + (['u'] + (['t'] + (['o'] + [])));
    LowerCons('e', []); LowerCons('n', "e"); LowerCons('o', "ne"); LowerCons('n', "one");
    LowerCons('o', []); LowerCons('t', "o"); LowerCons('u', "to"); LowerCons('a', "uto");
    assert "e" == ['e'] + [] && "ne" == ['n'] + "e" && "one" == ['o'] + "ne" && "none" == ['n'] + "one";
    assert "o" == ['o'] + [] && "to" == ['t'] + "o" && "uto" == ['u'] + "to" && "auto" == ['a'] + "uto";
  }

  lemma LowerCons(c: char, t: string)
    ensures ToLower([c] + t) == [LowerChar(c)] + ToLower(t)
  {
    assert ([c] + t)[1..] == t;
  }

  /** After conversion: what asks for automatic thinking has its mode, and nothing else does. */
  lemma ConvertedCanonical(c: Config, s: Support)
    requires ProperSupport(s) && ProperConfig(c) && Convert(c, s).0.Ok?
    ensures var d := Canonical(Convert(c, s).0.config);
      && ProperConfig(d)
      && (d.mode == AutoMode <==> AsksAuto(c, s))
      && (d.mode == BudgetMode ==> d.budget != 0 && s.max > 0)
      && (d.mode == LevelMode ==> s.levels != [] && d.level != "none" && d.level != "auto")
      && (d.mode == BudgetMode && d.budget == -1 <==> AutoAsBudget(c, s))
      && (Convert(c, s).1 ==> d.mode in {BudgetMode, NoneMode} && s.levels == [])
  {
    if DetectModelCapability(s) == LevelOnly && c.mode == BudgetMode {
      SpecialNames();
      ClampedNames(ConvertBudgetToLevel(c.budget).value, s.levels);
      assert c.budget != -1 ==> Clamped(ConvertBudgetToLevel(c.budget).value, s.levels) != "auto";
    } else if DetectModelCapability(s) == BudgetOnly && c.mode == LevelMode {
      SpecialNames();
    }
  }

  lemma CheckedReady(c: Config, s: Support, allowClamp: bool)
    requires ProperSupport(s) && ProperConfig(c) && Convert(c, s).0.Ok?
    requires CheckLevel(Canonical(Convert(c, s).0.config), s, allowClamp).Ok?
    ensures var d := CheckLevel(Canonical(Convert(c, s).0.config), s, allowClamp).config;
      && Ready(d, s)
      && (d.mode == AutoMode <==> AsksAuto(c, s))
      && (d.mode == BudgetMode && d.budget == -1 <==> AutoAsBudget(c, s))
      && (Convert(c, s).1 ==> d.mode in {BudgetMode, NoneMode} && s.levels == [])
  {
    ConvertedCanonical(c, s);
    var d := Canonical(Convert(c, s).0.config);
    ClampedNames(d.level, s.levels);
  }

  /** Clamping never makes a special name of a level that is none. */
  lemma ClampedNames(level: string, supported: seq<string>)
    ensures Clamped(level, supported) == level ||
      (Clamped(level, supported) != "none" && Clamped(level, supported) != "auto")
  {
  }

  lemma SettledAccepted(c: Config, s: Support, to: string)
    requires ProperSupport(s) && Ready(c, s)
    ensures Accepts(s, Settle(c, s, to)) <==>
      !(c.mode == AutoMode && !s.dynamicAllowed && s.max == 0 && !IsLevelSupported("medium", s.levels)) &&
      !(c.mode == BudgetMode && c.budget == -1)
  {
  }

  /** What a proper configuration becomes is accepted by the model, except in exactly two cases. */
  lemma ValidatedIsAccepted(c: Config, s: Support, to: string, allowClamp: bool, strict: bool)
    requires ProperSupport(s) && ProperConfig(c)
    requires ValidateWith(c, s, to, allowClamp, strict).Ok?
    ensures Accepts(s, ValidateWith(c, s, to, allowClamp, strict).config) <==>
      !MediumUnlisted(c, s) && !AutoAsBudget(c, s)
  {
    CheckedReady(c, s, allowClamp);
    SettledAccepted(CheckLevel(Canonical(Convert(c, s).0.config), s, allowClamp).config, s, to);
  }

  // ----- validating twice -----

  /** Budget 0 under ModeBudget: the middle of a range that is at most [0, 1] and does not allow zero, or a
      budget below -1 raised to the minimum 0. A second validation turns it into ModeNone. */
  predicate BecomesZeroBudget(c: Config, s: Support) {
    s.max > 0 && s.min == 0 &&
    ((AsksAuto(c, s) && !s.dynamicAllowed && !s.zeroAllowed && s.max == 1) || (c.mode == BudgetMode && c.budget < -1))
  }

  /** "AUTO" as a level became the budget -1 unchecked; given as a budget it is out of range. */
  predicate AutoRejectedLater(c: Config, s: Support, strict: bool) {
    strict && AutoAsBudget(c, s) && c.mode == LevelMode
  }

  /** Settling a settled configuration changes nothing. */
  lemma SettledStays(c: Config, s: Support, to: string)
    requires ProperSupport(s) && Ready(c, s) && !BecomesZeroBudget(c, s)
    requires !(c.mode == AutoMode && !s.dynamicAllowed && s.max == 0 && !IsLevelSupported("medium", s.levels))
    ensures var r := Settle(c, s, to);
      && Convert(r, s) == (Ok(r), false)
      && Canonical(r) == r
      && CheckLevel(r, s, false) == CheckLevel(r, s, true) == Ok(r)
      && Settle(r, s, to) == r
      && (OutOfRange(r, s) <==> r.mode == BudgetMode && r.budget == -1)
      && (r.mode == BudgetMode && r.budget == -1 <==> c.mode == BudgetMode && c.budget == -1)
  {
  }

  /** In the excepted cases the settled configuration is not a fixed point. */
  lemma SettledMoves(c: Config, s: Support, to: string, allowClamp: bool)
    requires ProperSupport(s) && Ready(c, s)
    requires BecomesZeroBudget(c, s) ||
      (c.mode == AutoMode && !s.dynamicAllowed && s.max == 0 && !IsLevelSupported("medium", s.levels))
    ensures ValidateWith(Settle(c, s, to), s, to, allowClamp, false) != Ok(Settle(c, s, to))
    ensures ValidateWith(Settle(c, s, to), s, to, allowClamp, true) != Ok(Settle(c, s, to))
  {
    if !BecomesZeroBudget(c, s) && Clamped("medium", s.levels) == "medium" {
      assert !IsLevelSupported("medium", s.levels);
    }
  }

  /** Validating a result again, for the same formats, succeeds and changes nothing, except in exactly
      three cases. */
  lemma ValidationIsNormalising(c: Config, s: Support, to: string, allowClamp: bool, strict: bool)
    requires ProperSupport(s) && ProperConfig(c)
    requires ValidateWith(c, s, to, allowClamp, strict).Ok?
    ensures var r := ValidateWith(c, s, to, allowClamp, strict).config;
      ValidateWith(r, s, to, allowClamp, strict) == Ok(r) <==>
      !MediumUnlisted(c, s) && !BecomesZeroBudget(c, s) && !AutoRejectedLater(c, s, strict)
  {
    CheckedReady(c, s, allowClamp);
    var d := CheckLevel(Canonical(Convert(c, s).0.config), s, allowClamp).config;
    CheckedZero(c, s, allowClamp);
    if BecomesZeroBudget(c, s) || MediumUnlisted(c, s) {
      SettledMoves(d, s, to, allowClamp);
    } else {
      SettledStays(d, s, to);
      Revalidated(Settle(d, s, to), s, to, allowClamp, strict);
    }
  }

  lemma CheckedZero(c: Config, s: Support, allowClamp: bool)
    requires ProperSupport(s) && ProperConfig(c) && Convert(c, s).0.Ok?
    requires CheckLevel(Canonical(Convert(c, s).0.config), s, allowClamp).Ok?
    ensures BecomesZeroBudget(CheckLevel(Canonical(Convert(c, s).0.config), s, allowClamp).config, s) <==>
      BecomesZeroBudget(c, s)
  {
    CheckedReady(c, s, allowClamp);
  }

  lemma Revalidated(r: Config, s: Support, to: string, allowClamp: bool, strict: bool)
    requires Convert(r, s) == (Ok(r), false) && Canonical(r) == r
    requires CheckLevel(r, s, false) == CheckLevel(r, s, true) == Ok(r) && Settle(r, s, to) == r
    ensures ValidateWith(r, s, to, allowClamp, strict) ==
      if strict && OutOfRange(r, s) then Err(BudgetOutOfRange) else Ok(r)
  {
  }

  /** Both results for the whole of ValidateConfig. */
  lemma ValidateAccepted(c: Config, s: Support, fromFormat: string, toFormat: string, fromSuffix: bool)
    requires ProperSupport(s) && ProperConfig(c)
    requires Validate(c, Some(s), fromFormat, toFormat, fromSuffix).Ok?
    ensures var r := Validate(c, Some(s), fromFormat, toFormat, fromSuffix).config;
      && (Accepts(s, r) <==> !MediumUnlisted(c, s) && !AutoAsBudget(c, s))
      && (Validate(r, Some(s), fromFormat, toFormat, fromSuffix) == Ok(r) <==>
            !MediumUnlisted(c, s) && !BecomesZeroBudget(c, s) &&
            !AutoRejectedLater(c, s, StrictBudget(Normal(fromFormat), Normal(toFormat), fromSuffix)))
  {
    var from, to := Normal(fromFormat), Normal(toFormat);
    ValidatedIsAccepted(c, s, to, AllowClamp(s, from, to), StrictBudget(from, to, fromSuffix));
    ValidationIsNormalising(c, s, to, AllowClamp(s, from, to), StrictBudget(from, to, fromSuffix));
  }

  /** The excepted cases exist: a level-only model without "medium" asked for automatic thinking. */
  lemma MediumUnlistedHappens(fromFormat: string, toFormat: string, fromSuffix: bool)
    ensures var s := Support(0, 0, false, false, ["low", "high"]);
      var r := Validate(Config(AutoMode, -1, ""), Some(s), fromFormat, toFormat, fromSuffix);
      r == Ok(Config(LevelMode, 0, "medium")) && !Accepts(s, r.config)
  {
    NoMedium();
  }

  lemma NoMedium()
    ensures !IsLevelSupported("medium", ["low", "high"])
  {
    ShortNames();
    forall i | 0 <= i < 2 ensures !EqualFold("medium", TrimSpace(["low", "high"][i])) {
      assert |ToLower(TrimSpace(["low", "high"][i]))| <= 4;
    }
  }

  lemma ShortNames()
    ensures |TrimSpace("low")| <= 4 && |TrimSpace("high")| <= 4
  {
    TrimShorter("low");
    TrimShorter("high");
  }

  lemma TrimShorter(s: string)
    ensures |TrimSpace(s)| <= |s|
  {
    TrimLeftShorter(s);
    TrimRightEnds(TrimLeft(s));
  }

  lemma {:induction false} TrimLeftShorter(s: string)
    ensures |TrimLeft(s)| <= |s|
  {
    if s != [] && IsSpace(s[0]) { TrimLeftShorter(s[1..]); }
  }

  /** The budget -1 given as a budget passes through and is in no range. */
  lemma AutoAsBudgetHappens(fromFormat: string, toFormat: string)
    ensures var s := Support(1, 100, false, true, []);
      var r := Validate(Config(BudgetMode, -1, ""), Some(s), fromFormat, toFormat, true);
      r == Ok(Config(BudgetMode, -1, "")) && !Accepts(s, r.config)
  {
  }

  /** A budget below -1 is raised to the minimum 0, which a second validation turns into ModeNone. */
  lemma BecomesZeroBudgetHappens(fromFormat: string, toFormat: string)
    ensures var s := Support(0, 100, true, true, []);
      var r := Config(BudgetMode, 0, "");
      && Validate(Config(BudgetMode, -2, ""), Some(s), fromFormat, toFormat, true) == Ok(r)
      && Validate(r, Some(s), fromFormat, toFormat, true) == Ok(Config(NoneMode, 0, ""))
  {
  }

  /** "AUTO" becomes the budget -1 unchecked, and as a budget it is then out of range. */
  lemma AutoRejectedLaterHappens(to: string)
    ensures var s := Support(1, 100, false, true, []);
      var r := Config(BudgetMode, -1, "");
      && ValidateWith(Config(LevelMode, 0, "AUTO"), s, to, false, true) == Ok(r)
      && ValidateWith(r, s, to, false, true) == Err(BudgetOutOfRange)
  {
    LowerAuto();
  }

  lemma LowerAuto()
    ensures ToLower("AUTO") == "auto"
  {
    assert "AUTO"[1..] == "UTO" && "UTO"[1..] == "TO" && "TO"[1..] == "O" && "O"[1..] == "";
    assert ToLower("O") == "o" && ToLower("TO") == "to" && ToLower("UTO") == "uto";
  }
}
