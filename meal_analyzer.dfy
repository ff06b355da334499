/** `processAnalysisResult` (src/lib/meal-analyzer.ts): turning the vision
    service's free-text description of a meal photo into a calorie and
    protein estimate by keyword matching against a fixed table of foods.
    `Math.random` is replaced by parameters drawn from the same ranges. */
module MealAnalyzer {
  import opened Wrappers
  import opened JsMath
  import opened Sequences

  /** One row of the keyword table: the keyword searched for, kcal and grams
      of protein of an average portion, and the display name. */
  datatype FoodEstimate = FoodEstimate(key: string, calories: int, protein: real, name: string)

  /** The keyword table, in the order the source lists it. */
  const FoodTable: seq<FoodEstimate> := [
    FoodEstimate("frango", 165, 31.0, "Frango"),
    FoodEstimate("arroz", 130, 2.7, "Arroz"),
    FoodEstimate("batata", 77, 2.0, "Batata"),
    FoodEstimate("salada", 25, 1.5, "Salada"),
    FoodEstimate("ovo", 155, 13.0, "Ovo"),
    FoodEstimate("peixe", 120, 25.0, "Peixe"),
    FoodEstimate("carne", 250, 30.0, "Carne"),
    FoodEstimate("macarrão", 157, 5.8, "Macarrão"),
    FoodEstimate("pão", 79, 2.7, "Pão"),
    FoodEstimate("queijo", 113, 7.0, "Queijo"),
    FoodEstimate("iogurte", 61, 3.5, "Iogurte"),
    FoodEstimate("fruta", 52, 0.5, "Fruta"),
    FoodEstimate("legume", 30, 2.0, "Legume"),
    FoodEstimate("sopa", 50, 3.0, "Sopa")
  ]

  /** The single name reported when no keyword matches. */
  const Unidentified: string := "Refeição não identificada"

  /** The result handed back to the nutrition page. */
  datatype MealAnalysis = MealAnalysis(calories: int, protein: real, foods: seq<string>, confidence: real)

  // ---------------------------------------------------------------------------
  // Text
  // ---------------------------------------------------------------------------

  /** `toLowerCase` on one character, for the Basic Latin and Latin-1
      letters (the Latin-1 capitals À..Þ, except ×, sit 32 below their
      small letters). */
  function LowerChar(c: char): char
  {
    if IsUpper(c) then (c as int + 32) as char else c
  }

  /** A capital letter that `LowerChar` lowers. */
  predicate IsUpper(c: char)
  {
    'A' <= c <= 'Z' || ('\U{C0}' <= c <= '\U{DE}' && c != '\U{D7}')
  }

  /** `toLowerCase`: no capital is left, every capital becomes its small
      letter 32 code points up, and everything else is kept. */
  function Lower(s: string): (r: string)
    ensures |r| == |s|
    ensures forall i :: 0 <= i < |r| ==> !IsUpper(r[i])
    ensures forall i :: 0 <= i < |s| && !IsUpper(s[i]) ==> r[i] == s[i]
    ensures forall i :: 0 <= i < |s| && IsUpper(s[i]) ==> r[i] as int == s[i] as int + 32
  {
    seq(|s|, i requires 0 <= i < |s| => LowerChar(s[i]))
  }

  /** Lowering commutes with taking a slice. */
  lemma LowerSlice(s: string, i: int, j: int)
    requires 0 <= i <= j <= |s|
    ensures Lower(s[i..j]) == Lower(s)[i..j]
  {
    assert forall k :: 0 <= k < j - i ==> Lower(s[i..j])[k] == Lower(s)[i..j][k];
  }

  /** Lowering text that is already lower case changes nothing; in
      particular lowering twice is lowering once. */
  lemma LowerIdempotent(s: string)
    ensures (forall i :: 0 <= i < |s| ==> !IsUpper(s[i])) ==> Lower(s) == s
    ensures Lower(Lower(s)) == Lower(s)
  {
  }

  /** `analysis.description?.toLowerCase() || ''`: a missing description
      reads as the empty text. */
  function AnalysisText(description: Option<string>): string
  {
    match description
    case Some(d) => Lower(d)
    case None => ""
  }

  /** JavaScript's `text.includes(key)`. */
  function Includes(text: string, key: string): bool
    decreases |text|
  {
    key <= text || (text != [] && Includes(text[1..], key))
  }

  /** `key` occurs in `text` starting at position `i`. */
  ghost predicate OccursAt(text: string, key: string, i: int)
  {
    0 <= i <= |text| - |key| && text[i..i + |key|] == key
  }

  /** `Includes` finds `key` exactly when it occurs at some position. */
  lemma {:induction false} IncludesIffOccurs(text: string, key: string)
    ensures Includes(text, key) <==> exists i :: OccursAt(text, key, i)
  {
    if key <= text {
      assert OccursAt(text, key, 0);
    } else if text == [] {
    } else {
      IncludesIffOccurs(text[1..], key);
      if i :| OccursAt(text, key, i) {
        assert i != 0;
        assert text[1..][i - 1..i - 1 + |key|] == key;
        assert OccursAt(text[1..], key, i - 1);
      }
      if j :| OccursAt(text[1..], key, j) {
        assert text[j + 1..j + 1 + |key|] == key;
        assert OccursAt(text, key, j + 1);
      }
    }
  }

  // ---------------------------------------------------------------------------
  // The table scan, as functions over the first entries of the table
  // ---------------------------------------------------------------------------

  /** The names of the entries whose keyword occurs in `text`, in order. */
  function MatchedNames(text: string, entries: seq<FoodEstimate>): seq<string>
  {
    if entries == [] then []
    else
      var last := entries[|entries| - 1];
      MatchedNames(text, entries[..|entries| - 1]) + (if Includes(text, last.key) then [last.name] else [])
  }

  /** The kcal an entry adds at portion multiplier `m`: `Math.round(c * m)`. */
  function PortionCalories(e: FoodEstimate, m: real): int
  {
    Round(e.calories as real * m)
  }

  /** The protein an entry adds at portion multiplier `m`, to one decimal:
      `Math.round(p * m * 10) / 10`. */
  function PortionProtein(e: FoodEstimate, m: real): real
  {
    Round(e.protein * m * 10.0) as real / 10.0
  }

  /** The kcal the matching entries add; `portions[i]` is the multiplier
      drawn for entry `i`. */
  function MatchedCalories(text: string, entries: seq<FoodEstimate>, portions: seq<real>): int
    requires |portions| == |entries|
  {
    if entries == [] then 0
    else
      var n := |entries| - 1;
      MatchedCalories(text, entries[..n], portions[..n])
        + (if Includes(text, entries[n].key) then PortionCalories(entries[n], portions[n]) else 0)
  }

  /** The protein the matching entries add. */
  function MatchedProtein(text: string, entries: seq<FoodEstimate>, portions: seq<real>): real
    requires |portions| == |entries|
  {
    if entries == [] then 0.0
    else
      var n := |entries| - 1;
      MatchedProtein(text, entries[..n], portions[..n])
        + (if Includes(text, entries[n].key) then PortionProtein(entries[n], portions[n]) else 0.0)
  }

  /** Every multiplier lies in `Math.random() * 0.5 + 0.75`'s range. */
  ghost predicate PortionsInRange(portions: seq<real>)
  {
    forall i :: 0 <= i < |portions| ==> 0.75 <= portions[i] < 1.25
  }

  /** The same multiplier `m` for every entry. */
  function Uniform(n: nat, m: real): (ms: seq<real>)
    ensures |ms| == n && forall i :: 0 <= i < n ==> ms[i] == m
  {
    seq(n, _ => m)
  }

  // ---------------------------------------------------------------------------
  // processAnalysisResult
  // ---------------------------------------------------------------------------

  /** The `forEach` over the keyword table: for each entry whose keyword
      occurs in `text`, push its name and add its portion's kcal and protein. */
  method ScanTable(text: string, table: seq<FoodEstimate>, portions: seq<real>)
    returns (foods: seq<string>, totalCalories: int, totalProtein: real)
    requires |portions| == |table|
    ensures foods == MatchedNames(text, table)
    ensures totalCalories == MatchedCalories(text, table, portions)
    ensures totalProtein == MatchedProtein(text, table, portions)
  {
    foods, totalCalories, totalProtein := [], 0, 0.0;
    for i := 0 to |table|
      invariant foods == MatchedNames(text, table[..i])
      invariant totalCalories == MatchedCalories(text, table[..i], portions[..i])
      invariant totalProtein == MatchedProtein(text, table[..i], portions[..i])
    {
      var estimate := table[i];
      assert table[..i + 1][..i] == table[..i] && portions[..i + 1][..i] == portions[..i];
      if Includes(text, estimate.key) {
        foods := foods + [estimate.name];
        var portionMultiplier := portions[i];
        totalCalories := totalCalories + PortionCalories(estimate, portionMultiplier);
        totalProtein := totalProtein + PortionProtein(estimate, portionMultiplier);
      }
    }
    assert table[..|table|] == table && portions[..|portions|] == portions;
  }

  /** `processAnalysisResult`. `portions[i]` is the portion multiplier drawn
      if entry `i` matches, and `calorieDraw` and `proteinDraw` are the two
      `Math.random()` values of the fallback estimate. */
  method ProcessAnalysisResult(description: Option<string>, portions: seq<real>,
                               calorieDraw: real, proteinDraw: real)
    returns (result: MealAnalysis)
    requires |portions| == |FoodTable| && PortionsInRange(portions)
    requires 0.0 <= calorieDraw < 1.0 && 0.0 <= proteinDraw < 1.0
    ensures var text := AnalysisText(description);
      if MatchedNames(text, FoodTable) != [] then
        && result.foods == MatchedNames(text, FoodTable)
        && result.calories == MatchedCalories(text, FoodTable, portions)
        && result.protein == MatchedProtein(text, FoodTable, portions)
      else
        && result.foods == [Unidentified]
        && result.calories == (calorieDraw * 400.0).Floor + 200
        && result.protein == ((proteinDraw * 30.0).Floor + 10) as real
    ensures MatchedNames(AnalysisText(description), FoodTable) == [] ==>
      200 <= result.calories <= 599 && 10.0 <= result.protein <= 39.0
    ensures result.foods != [] && |result.foods| <= |FoodTable|
    ensures result.confidence == 0.8
  {
    var text := AnalysisText(description);
    var foods, totalCalories, totalProtein := ScanTable(text, FoodTable, portions);
    MatchedNamesLength(text, FoodTable);
    if |foods| == 0 {
      foods := foods + [Unidentified];
      totalCalories := (calorieDraw * 400.0).Floor + 200;
      totalProtein := ((proteinDraw * 30.0).Floor + 10) as real;
    }
    result := MealAnalysis(totalCalories, totalProtein, foods, 0.8);
  }

  // ---------------------------------------------------------------------------
  // Properties of the scan
  // ---------------------------------------------------------------------------

  /** Each table entry contributes at most one name. */
  lemma {:induction false} MatchedNamesLength(text: string, entries: seq<FoodEstimate>)
    ensures |MatchedNames(text, entries)| <= |entries|
  {
    if entries != [] {
      MatchedNamesLength(text, entries[..|entries| - 1]);
    }
  }

  /** A name is reported exactly when the keyword of an entry with that name
      occurs in the text. */
  lemma {:induction false} MatchedNamesMembers(text: string, entries: seq<FoodEstimate>, name: string)
    ensures name in MatchedNames(text, entries)
        <==> exists i :: 0 <= i < |entries| && entries[i].name == name && Includes(text, entries[i].key)
  {
    if entries != [] {
      var n := |entries| - 1;
      MatchedNamesMembers(text, entries[..n], name);
      if i :| 0 <= i < |entries| && entries[i].name == name && Includes(text, entries[i].key) {
        if i < n {
          assert entries[..n][i] == entries[i];
        }
      }
      if i :| 0 <= i < n && entries[..n][i].name == name && Includes(text, entries[..n][i].key) {
        assert entries[i] == entries[..n][i];
      }
    }
  }

  /** The table's keywords are written in lower case, so lowering leaves
      them as they are. */
  lemma TableKeysLowerCase()
    ensures forall k :: 0 <= k < |FoodTable| ==> Lower(FoodTable[k].key) == FoodTable[k].key
  {
    forall k | 0 <= k < |FoodTable|
      ensures Lower(FoodTable[k].key) == FoodTable[k].key
    {
      LowerIdempotent(FoodTable[k].key);
    }
  }

  /** Matching ignores case: when some stretch of the description is a
      table keyword in any capitalisation, that entry's name is reported. */
  lemma MatchIgnoresCase(description: string, k: int, i: int)
    requires 0 <= k < |FoodTable|
    requires 0 <= i <= |description| - |FoodTable[k].key|
    requires Lower(description[i..i + |FoodTable[k].key|]) == FoodTable[k].key
    ensures FoodTable[k].name in MatchedNames(AnalysisText(Some(description)), FoodTable)
  {
    var key := FoodTable[k].key;
    var text := AnalysisText(Some(description));
    LowerSlice(description, i, i + |key|);
    assert OccursAt(text, key, i);
    IncludesIffOccurs(text, key);
    MatchedNamesMembers(text, FoodTable, FoodTable[k].name);
  }

  /** An instance: a description shouting the keyword in capitals still
      reports chicken. */
  lemma ShoutedKeyword()
    ensures "Frango" in MatchedNames(AnalysisText(Some("FRANGO grelhado")), FoodTable)
  {
    var d := "FRANGO grelhado";
    assert Lower(d[0..6]) == "frango";
    MatchIgnoresCase(d, 0, 0);
  }

  /** Over a table whose names are distinct, no name is reported twice. */
  lemma {:induction false} MatchedNamesDistinct(text: string, entries: seq<FoodEstimate>)
    requires Distinct(Names(entries))
    ensures Distinct(MatchedNames(text, entries))
  {
    if entries != [] {
      var n := |entries| - 1;
      assert Names(entries[..n]) == Names(entries)[..n];
      MatchedNamesDistinct(text, entries[..n]);
      MatchedNamesMembers(text, entries[..n], entries[n].name);
    }
  }

  /** The fourteen display names of the table differ. */
  lemma TableNamesDistinct()
    ensures Distinct(Names(FoodTable))
  {
  }

  /** The reported names keep the table's order. */
  lemma {:induction false} MatchedNamesInOrder(text: string, entries: seq<FoodEstimate>)
    ensures IsSubsequence(MatchedNames(text, entries), Names(entries))
  {
    if entries != [] {
      var n := |entries| - 1;
      MatchedNamesInOrder(text, entries[..n]);
      assert Names(entries) == Names(entries[..n]) + [entries[n].name];
      if Includes(text, entries[n].key) {
        SubsequenceAppend(MatchedNames(text, entries[..n]), Names(entries[..n]), entries[n].name);
      } else {
        assert MatchedNames(text, entries) == MatchedNames(text, entries[..n]);
        SubsequenceExtend(MatchedNames(text, entries[..n]), Names(entries[..n]), entries[n].name);
      }
    }
  }

  /** The display names of a list of entries. */
  function Names(entries: seq<FoodEstimate>): (names: seq<string>)
    ensures |names| == |entries| && forall i :: 0 <= i < |entries| ==> names[i] == entries[i].name
  {
    seq(|entries|, i requires 0 <= i < |entries| => entries[i].name)
  }

  /** The empty text contains no non-empty keyword. */
  lemma {:induction false} EmptyTextMatchesNothing(entries: seq<FoodEstimate>)
    requires forall i :: 0 <= i < |entries| ==> entries[i].key != ""
    ensures MatchedNames("", entries) == []
  {
    var n := |entries|;
    if n != 0 {
      EmptyTextMatchesNothing(entries[..n - 1]);
      assert !Includes("", entries[n - 1].key);
    }
  }

  /** A missing or empty description matches no keyword, so it always takes
      the fallback path. */
  lemma MissingDescriptionFallsBack()
    ensures MatchedNames(AnalysisText(None), FoodTable) == []
    ensures MatchedNames(AnalysisText(Some("")), FoodTable) == []
  {
    EmptyTextMatchesNothing(FoodTable);
  }

  /** The matched kcal lie between what every match would add at the
      smallest multiplier 0.75 and at the largest 1.25, and are never
      negative. */
  lemma {:induction false} CaloriesBetween(text: string, entries: seq<FoodEstimate>, portions: seq<real>)
    requires |portions| == |entries| && PortionsInRange(portions)
    requires forall i :: 0 <= i < |entries| ==> 0 <= entries[i].calories
    ensures 0 <= MatchedCalories(text, entries, Uniform(|entries|, 0.75))
    ensures MatchedCalories(text, entries, Uniform(|entries|, 0.75))
         <= MatchedCalories(text, entries, portions)
         <= MatchedCalories(text, entries, Uniform(|entries|, 1.25))
  {
    if entries != [] {
      var n := |entries| - 1;
      assert Uniform(|entries|, 0.75)[..n] == Uniform(n, 0.75);
      assert Uniform(|entries|, 1.25)[..n] == Uniform(n, 1.25);
      CaloriesBetween(text, entries[..n], portions[..n]);
      PortionCaloriesBounds(entries[n], portions[n]);
    }
  }

  /** One matched entry adds between its kcal at multiplier 0.75 and at 1.25. */
  lemma PortionCaloriesBounds(e: FoodEstimate, m: real)
    requires 0 <= e.calories && 0.75 <= m < 1.25
    ensures 0 <= PortionCalories(e, 0.75) <= PortionCalories(e, m) <= PortionCalories(e, 1.25)
  {
    var c := e.calories as real;
    RoundNonNegative(c * 0.75);
    ScaleMonotone(c, 0.75, m);
    ScaleMonotone(c, m, 1.25);
    RoundMonotone(c * 0.75, c * m);
    RoundMonotone(c * m, c * 1.25);
  }

  lemma ScaleMonotone(c: real, a: real, b: real)
    requires 0.0 <= c && a <= b
    ensures c * a <= c * b
  {
    assert c * b - c * a == c * (b - a);
  }

  /** The matched protein is never negative. */
  lemma {:induction false} ProteinNonNegative(text: string, entries: seq<FoodEstimate>, portions: seq<real>)
    requires |portions| == |entries| && PortionsInRange(portions)
    requires forall i :: 0 <= i < |entries| ==> 0.0 <= entries[i].protein
    ensures 0.0 <= MatchedProtein(text, entries, portions)
  {
    if entries != [] {
      var n := |entries| - 1;
      ProteinNonNegative(text, entries[..n], portions[..n]);
      PortionProteinNonNegative(entries[n], portions[n]);
    }
  }

  lemma PortionProteinNonNegative(e: FoodEstimate, m: real)
    requires 0.0 <= e.protein && 0.0 <= m
    ensures 0.0 <= PortionProtein(e, m)
  {
    assert 0.0 <= e.protein * m;
    RoundNonNegative(e.protein * m * 10.0);
  }

  /** The names the table gives for any description: at most fourteen,
      distinct, in table order, and exactly those of the entries whose
      keyword occurs. */
  lemma TableScanNames(text: string)
    ensures |MatchedNames(text, FoodTable)| <= 14
    ensures Distinct(MatchedNames(text, FoodTable))
    ensures IsSubsequence(MatchedNames(text, FoodTable), Names(FoodTable))
    ensures forall name :: (name in MatchedNames(text, FoodTable)
        <==> exists i :: 0 <= i < |FoodTable| && FoodTable[i].name == name && Includes(text, FoodTable[i].key))
  {
    MatchedNamesLength(text, FoodTable);
    TableNamesDistinct();
    MatchedNamesDistinct(text, FoodTable);
    MatchedNamesInOrder(text, FoodTable);
    forall name ensures name in MatchedNames(text, FoodTable)
        <==> exists i :: 0 <= i < |FoodTable| && FoodTable[i].name == name && Includes(text, FoodTable[i].key)
    {
      MatchedNamesMembers(text, FoodTable, name);
    }
  }

  /** The totals the table gives for any description: kcal within the 0.75
      and 1.25 portion bounds, and non-negative kcal and protein. */
  lemma TableScanTotals(text: string, portions: seq<real>)
    requires |portions| == |FoodTable| && PortionsInRange(portions)
    ensures MatchedCalories(text, FoodTable, Uniform(14, 0.75))
         <= MatchedCalories(text, FoodTable, portions)
         <= MatchedCalories(text, FoodTable, Uniform(14, 1.25))
    ensures 0 <= MatchedCalories(text, FoodTable, portions) && 0.0 <= MatchedProtein(text, FoodTable, portions)
  {
    CaloriesBetween(text, FoodTable, portions);
    ProteinNonNegative(text, FoodTable, portions);
  }

  /** The fallback estimate: 200..599 kcal and 10..39 g of protein. */
  lemma FallbackRanges(calorieDraw: real, proteinDraw: real)
    requires 0.0 <= calorieDraw < 1.0 && 0.0 <= proteinDraw < 1.0
    ensures 200 <= (calorieDraw * 400.0).Floor + 200 <= 599
    ensures 10 <= (proteinDraw * 30.0).Floor + 10 <= 39
  {
  }
}
