/** What a validation yields, with every level, budget and provider family written out. */
module ThinkingTables {
  import opened Collections
  import opened Text
  import opened Thinking

  // ----- levels and budgets -----

  /** The standard levels in their order. */
  function NameAt(i: nat): string
    requires i < 6
  {
    if i == 0 then "minimal" else if i == 1 then "low" else if i == 2 then "medium"
    else if i == 3 then "high" else if i == 4 then "xhigh" else "max"
  }

  /** What each level is worth. */
  function WorthAt(i: nat): int
    requires i < 6
  {
    if i == 0 then 512 else if i == 1 then 1024 else if i == 2 then 8192
    else if i == 3 then 24576 else if i == 4 then 32768 else 128000
  }

  lemma NameFixed(s: string)
    requires forall j :: 0 <= j < |s| ==> !('A' <= s[j] <= 'Z')
    ensures ToLower(s) == s
  {
    LowerPoints(s);
  }

  lemma LowerEarly()
    ensures ToLower("minimal") == "minimal" && ToLower("low") == "low"
  {
    hide ToLower;
    NameFixed("minimal");
    NameFixed("low");
  }

  lemma LowerMedium()
    ensures ToLower("medium") == "medium"
  {
    hide ToLower;
    NameFixed("medium");
  }

  lemma LowerLate()
    ensures ToLower("high") == "high" && ToLower("xhigh") == "xhigh" && ToLower("max") == "max"
  {
    hide ToLower;
    NameFixed("high");
    NameFixed("xhigh");
    NameFixed("max");
  }

  lemma LowerName(i: nat)
    requires i < 6
    ensures ToLower(NameAt(i)) == NameAt(i)
  {
    hide ToLower;
    LowerEarly();
    LowerMedium();
    LowerLate();
  }

  /** A level is at a place in the standard order exactly if it is that place's name, in any case. */
  lemma PlaceExactly(level: string, i: nat)
    requires i < 6
    ensures LevelIndex(level) == i <==> ToLower(level) == NameAt(i)
    ensures STANDARD_LEVELS[i] == NameAt(i)
  {
  }

  lemma WorthExactly(level: string, i: nat)
    requires i < 6 && ToLower(level) == NameAt(i)
    ensures ConvertLevelToBudget(level) == Some(WorthAt(i))
  {
  }

  /** A higher level is worth more. */
  lemma HigherIsMore(a: string, b: string)
    requires 0 <= LevelIndex(a) < LevelIndex(b)
    ensures ConvertLevelToBudget(a).Some? && ConvertLevelToBudget(b).Some?
    ensures ConvertLevelToBudget(a).value < ConvertLevelToBudget(b).value
  {
    PlaceExactly(a, LevelIndex(a));
    PlaceExactly(b, LevelIndex(b));
    WorthExactly(a, LevelIndex(a));
    WorthExactly(b, LevelIndex(b));
  }

  /** Level i is the lowest of the first five that is worth as much as the budget, or the fifth. */
  predicate ReadsAs(budget: int, i: nat) {
    budget > 0 && i < 5 && (i > 0 ==> WorthAt(i - 1) < budget) && (i < 4 ==> budget <= WorthAt(i))
  }

  lemma BudgetReads(budget: int, i: nat)
    requires budget > 0 && i < 5
    ensures ConvertBudgetToLevel(budget) == Some(NameAt(i)) <==> ReadsAs(budget, i)
  {
  }

  /** The first five levels survive the way to a budget and back, the sixth comes back as the fifth. */
  lemma LevelSurvives(i: nat)
    requires i < 6
    ensures ConvertLevelToBudget(NameAt(i)).Some?
    ensures ConvertBudgetToLevel(ConvertLevelToBudget(NameAt(i)).value) == Some(NameAt(if i < 5 then i else 4))
  {
    LowerName(i);
    WorthExactly(NameAt(i), i);
  }

  // ----- what becomes of a level -----

  /** The value itself if it lies in the range, else the nearer end. */
  function Between(low: int, value: int, high: int): int {
    if value < low then low else if value > high then high else value
  }

  lemma BetweenIsNearest(low: int, value: int, high: int, x: int)
    requires low <= x <= high
    ensures low <= Between(low, value, high) <= high
    ensures (if value < Between(low, value, high) then Between(low, value, high) - value
             else value - Between(low, value, high)) <= if value < x then x - value else value - x
  {
  }

  /** A level given to a model that knows only budgets becomes what it is worth, fitted into the range. */
  lemma LevelBecomesBudget(level: string, i: nat, budget: int, s: Support, from: string, to: string, suffix: bool)
    requires i < 6 && ToLower(level) == NameAt(i)
    requires s.levels == [] && 0 <= s.min <= s.max && s.max > 0
    ensures Validate(Config(LevelMode, budget, level), Some(s), from, to, suffix) ==
      Ok(Config(BudgetMode, Between(s.min, WorthAt(i), s.max), ""))
  {
    LevelConverts(level, i, budget, s);
    DerivedBudgetFits(Config(LevelMode, budget, level), WorthAt(i), s, from, to, suffix);
  }

  lemma LevelConverts(level: string, i: nat, budget: int, s: Support)
    requires i < 6 && ToLower(level) == NameAt(i)
    requires s.levels == [] && 0 <= s.min <= s.max && s.max > 0
    ensures Convert(Config(LevelMode, budget, level), s) == (Ok(Config(BudgetMode, WorthAt(i), "")), true)
  {
    WorthExactly(level, i);
    assert level != "auto" by {
      if level == "auto" { SpecialNames(); }
    }
    hide ConvertLevelToBudget, ToLower;
  }

  lemma DerivedBudgetFits(c: Config, budget: int, s: Support, from: string, to: string, suffix: bool)
    requires Convert(c, s) == (Ok(Config(BudgetMode, budget, "")), true) && budget > 0
    requires s.levels == [] && 0 <= s.min <= s.max && s.max > 0
    ensures Validate(c, Some(s), from, to, suffix) == Ok(Config(BudgetMode, Between(s.min, budget, s.max), ""))
  {
    hide Convert, ToLower, TrimSpace, IsSameProviderFamily, IsLevelSupported, OutOfRange;
  }

  /** A level that the model lists stays. */
  lemma ListedLevelStays(level: string, budget: int, s: Support, from: string, to: string, suffix: bool)
    requires IsLevelSupported(level, s.levels) && level != "none" && level != "auto"
    ensures Validate(Config(LevelMode, budget, level), Some(s), from, to, suffix) ==
      Ok(Config(LevelMode, budget, level))
  {
    assert s.levels != [];
  }

  /** The listed standard level nearest to the one at place i. */
  function NearestListed(i: int, levels: seq<string>): string {
    var n := Nearest(i, Places(levels));
    if n >= 0 then NameAt(n) else ""
  }

  lemma ClampsToNearest(level: string, levels: seq<string>)
    requires levels != [] && !IsLevelSupported(level, levels) && LevelIndex(level) != -1
    requires exists i :: 0 <= i < |levels| && LevelIndex(TrimSpace(levels[i])) != -1
    ensures Clamped(level, levels) == NearestListed(LevelIndex(level), levels)
    ensures IsLevelSupported(Clamped(level, levels), levels)
  {
    ClampedSupported(level, levels);
    NearestIsNearest(LevelIndex(level), Places(levels));
    var i :| 0 <= i < |levels| && LevelIndex(TrimSpace(levels[i])) != -1;
    assert Places(levels)[i] == LevelIndex(TrimSpace(levels[i]));
    var n := Nearest(LevelIndex(level), Places(levels));
    assert n >= 0;
    PlaceExactly(NameAt(n), n);
  }

  /** Some listed level is a standard one. */
  predicate ListsStandard(levels: seq<string>) {
    exists i :: 0 <= i < |levels| && LevelIndex(TrimSpace(levels[i])) != -1
  }

  /** A level that the model does not list is an error within a provider family; across families it becomes
      the nearest listed one, if it and some listed one are standard. */
  lemma UnlistedLevel(level: string, budget: int, s: Support, from: string, to: string, suffix: bool)
    requires s.levels != [] && !IsLevelSupported(level, s.levels) && level != "none" && level != "auto"
    ensures Validate(Config(LevelMode, budget, level), Some(s), from, to, suffix) ==
      if SameFamily(ToLower(TrimSpace(from)), ToLower(TrimSpace(to))) || LevelIndex(level) == -1 ||
         !ListsStandard(s.levels)
      then Err(LevelNotSupported)
      else Ok(Config(LevelMode, budget, NearestListed(LevelIndex(level), s.levels)))
  {
    FamilyExactly(ToLower(TrimSpace(from)), ToLower(TrimSpace(to)));
    ClampedSupported(level, s.levels);
    if LevelIndex(level) != -1 && ListsStandard(s.levels) { ClampsToNearest(level, s.levels); }
    UnlistedChecked(Config(LevelMode, budget, level), s, from, to, suffix);
    hide *;
  }

  lemma UnlistedChecked(c: Config, s: Support, from: string, to: string, suffix: bool)
    requires c.mode == LevelMode && s.levels != [] && !IsLevelSupported(c.level, s.levels)
    requires c.level != "none" && c.level != "auto"
    ensures var allow := !IsSameProviderFamily(ToLower(TrimSpace(from)), ToLower(TrimSpace(to)));
      Validate(c, Some(s), from, to, suffix) ==
        if allow && IsLevelSupported(Clamped(c.level, s.levels), s.levels)
        then Ok(c.(level := Clamped(c.level, s.levels))) else Err(LevelNotSupported)
  {
    hide IsLevelSupported, Clamped, IsSameProviderFamily, ToLower, TrimSpace;
    assert Convert(c, s) == (Ok(c), false) && Canonical(c) == c;
  }

  // ----- provider families -----

  predicate SameFamily(a: string, b: string) {
    || a == b
    || {a, b} <= {"gemini", "gemini-cli", "antigravity"}
    || {a, b} <= {"openai", "openai-response", "codex"}
  }

  lemma FamilyExactly(a: string, b: string)
    ensures IsSameProviderFamily(a, b) <==> SameFamily(a, b)
  {
    assert a in {a, b} && b in {a, b};
  }

  // ----- what becomes of a budget -----

  /** A budget given to a model with a range: within the range it stays; outside it is an error if it
      came in a request body of the model's own provider family, and is fitted into the range otherwise. */
  lemma BudgetFits(budget: int, level: string, s: Support, from: string, to: string, suffix: bool)
    requires budget > 0 && 0 <= s.min <= s.max && s.max > 0
    ensures var f, t := ToLower(TrimSpace(from)), ToLower(TrimSpace(to));
      Validate(Config(BudgetMode, budget, level), Some(s), from, to, suffix) ==
        if !(s.min <= budget <= s.max) && !suffix && f != "" && SameFamily(f, t) then Err(BudgetOutOfRange)
        else Ok(Config(BudgetMode, Between(s.min, budget, s.max), level))
  {
    FamilyExactly(ToLower(TrimSpace(from)), ToLower(TrimSpace(to)));
  }

  /** A budget given to a model with neither range nor levels stays. */
  lemma UnlimitedBudgetStays(budget: int, level: string, s: Support, from: string, to: string, suffix: bool)
    requires budget > 0 && s.levels == [] && s.min == 0 && s.max == 0
    ensures Validate(Config(BudgetMode, budget, level), Some(s), from, to, suffix) ==
      Ok(Config(BudgetMode, budget, level))
  {
  }

  /** A positive budget given to a model that knows only levels becomes the level that it reads as, or the listed
      level nearest to that, whatever the provider families. */
  lemma BudgetBecomesLevel(budget: int, level: string, i: nat, s: Support, from: string, to: string, suffix: bool)
    requires s.levels != [] && s.min == 0 && s.max == 0 && ReadsAs(budget, i) && ListsStandard(s.levels)
    ensures Validate(Config(BudgetMode, budget, level), Some(s), from, to, suffix) ==
      Ok(Config(LevelMode, 0, if IsLevelSupported(NameAt(i), s.levels) then NameAt(i) else NearestListed(i, s.levels)))
  {
    BudgetConverts(budget, level, i, s);
    ReadLevelFits(i, s.levels);
    ConvertedLevelStays(Config(BudgetMode, budget, level), Clamped(NameAt(i), s.levels), s, from, to, suffix);
  }

  lemma BudgetConverts(budget: int, level: string, i: nat, s: Support)
    requires s.levels != [] && s.min == 0 && s.max == 0 && ReadsAs(budget, i)
    ensures Convert(Config(BudgetMode, budget, level), s) ==
      (Ok(Config(LevelMode, 0, Clamped(NameAt(i), s.levels))), false)
  {
    BudgetReads(budget, i);
    hide Clamped, ReadsAs;
  }

  lemma ReadLevelFits(i: nat, levels: seq<string>)
    requires i < 5 && levels != [] && ListsStandard(levels)
    ensures var l := Clamped(NameAt(i), levels);
      && l == (if IsLevelSupported(NameAt(i), levels) then NameAt(i) else NearestListed(i, levels))
      && IsLevelSupported(l, levels) && l != "none" && l != "auto"
  {
    LowerName(i);
    PlaceExactly(NameAt(i), i);
    if !IsLevelSupported(NameAt(i), levels) { ClampsToNearest(NameAt(i), levels); }
    ClampedNames(NameAt(i), levels);
    hide NearestListed, IsLevelSupported, ListsStandard;
  }

  lemma ConvertedLevelStays(c: Config, level: string, s: Support, from: string, to: string, suffix: bool)
    requires Convert(c, s) == (Ok(Config(LevelMode, 0, level)), false)
    requires IsLevelSupported(level, s.levels) && level != "none" && level != "auto"
    ensures Validate(c, Some(s), from, to, suffix) == Ok(Config(LevelMode, 0, level))
  {
    hide Convert, IsLevelSupported;
  }

  // ----- no thinking, automatic thinking -----

  /** What asks for no thinking: the mode, the level "none", or the budget 0. */
  predicate AsksNone(c: Config, s: Support) {
    (c.mode == NoneMode && c.budget == 0 && c.level == "") || (c.mode == LevelMode && c.level == "none") ||
    (c.mode == BudgetMode && c.budget == 0)
  }

  /** It is granted for "claude", and where zero is allowed or the range begins there; elsewhere the model thinks
      as little as it can. */
  lemma NoneGranted(c: Config, s: Support, from: string, to: string, suffix: bool)
    requires ProperSupport(s) && AsksNone(c, s)
    ensures Validate(c, Some(s), from, to, suffix) ==
      if ToLower(TrimSpace(to)) == "claude" || s.zeroAllowed || s.min == 0 then Ok(Config(NoneMode, 0, ""))
      else Ok(Config(NoneMode, s.min, if s.levels != [] then s.levels[0] else ""))
  {
    NoneConverts(c, s);
    NoneSettles(s, ToLower(TrimSpace(to)));
    NoneValidates(c, s, from, to, suffix);
  }

  lemma NoneConverts(c: Config, s: Support)
    requires ProperSupport(s) && AsksNone(c, s)
    ensures Convert(c, s).0.Ok? && Canonical(Convert(c, s).0.config) == Config(NoneMode, 0, "")
  {
    SpecialNames();
    if c.mode == BudgetMode && DetectModelCapability(s) == LevelOnly {
      assert Clamped("none", s.levels) == "none";
    }
    hide ToLower, Clamped, LevelIndex;
  }

  lemma NoneSettles(s: Support, to: string)
    requires ProperSupport(s)
    ensures Settle(Config(NoneMode, 0, ""), s, to) ==
      if to == "claude" || s.zeroAllowed || s.min == 0 then Config(NoneMode, 0, "")
      else Config(NoneMode, s.min, if s.levels != [] then s.levels[0] else "")
  {
  }

  lemma NoneValidates(c: Config, s: Support, from: string, to: string, suffix: bool)
    requires Convert(c, s).0.Ok? && Canonical(Convert(c, s).0.config) == Config(NoneMode, 0, "")
    ensures Validate(c, Some(s), from, to, suffix) ==
      Ok(Settle(Config(NoneMode, 0, ""), s, ToLower(TrimSpace(to))))
  {
    hide Convert, Canonical, Settle, ToLower, TrimSpace, IsSameProviderFamily;
  }

  /** Automatic thinking stays where it is allowed; else it becomes the middle of the range, on a model that
      knows only levels "medium". */
  lemma AutoBecomesMiddle(s: Support, from: string, to: string, suffix: bool)
    requires ProperSupport(s)
    ensures Validate(Config(AutoMode, -1, ""), Some(s), from, to, suffix) ==
      if s.dynamicAllowed then Ok(Config(AutoMode, -1, ""))
      else if s.max == 0 then Ok(Config(LevelMode, 0, "medium"))
      else if s.min + s.max >= 2 then Ok(Config(BudgetMode, (s.min + s.max) / 2, ""))
      else if s.zeroAllowed then Ok(Config(NoneMode, 0, ""))
      else Ok(Config(BudgetMode, s.min, ""))
  {
  }

  /** A model without support for thinking takes only configurations that ask for none. */
  lemma UnsupportedExactly(c: Config, from: string, to: string, suffix: bool)
    ensures Validate(c, None, from, to, suffix) == if c.mode == NoneMode then Ok(c) else Err(NotSupported)
  {
  }
}
