/** Family tagging of grid-search candidates: the string form of an estimator
    is mapped to a short family name by priority-ordered substring tests. */
module ClfName {

  /** `t` occurs in `s` starting at position `i`. */
  predicate OccursAt(s: string, t: string, i: int)
  {
    0 <= i <= |s| - |t| && t <= s[i..]
  }

  /** `t in s` for Python strings: `t` occurs in `s` as a contiguous substring. */
  predicate Contains(s: string, t: string)
  {
    exists i :: 0 <= i <= |s| - |t| && OccursAt(s, t, i)
  }

  /** Every family name the tagging can produce. */
  const FamilyNames: set<string> :=
    {"RandomForest", "KNeighbors", "SVC", "Ridge", "Logistic", "Unknown"}

  /** The family for a stringified estimator. The tests are tried in this order
      and the first hit wins. */
  function ExtractClfName(s: string): (r: string)
    ensures r in FamilyNames
  {
    if Contains(s, "RandomForestClassifier") then "RandomForest"
    else if Contains(s, "KNeighborsClassifier") then "KNeighbors"
    else if Contains(s, "SVC") then "SVC"
    else if Contains(s, "RidgeClassifier") then "Ridge"
    else if Contains(s, "LogisticRegression") then "Logistic"
    else "Unknown"
  }

  /** Which substrings decide each outcome, given the priority order. */
  lemma ExtractClfNamePriority(s: string)
    ensures Contains(s, "RandomForestClassifier") ==> ExtractClfName(s) == "RandomForest"
    ensures ExtractClfName(s) == "SVC" <==>
      Contains(s, "SVC") && !Contains(s, "RandomForestClassifier")
      && !Contains(s, "KNeighborsClassifier")
    ensures ExtractClfName(s) == "Logistic" <==>
      Contains(s, "LogisticRegression") && !Contains(s, "RandomForestClassifier")
      && !Contains(s, "KNeighborsClassifier") && !Contains(s, "SVC")
      && !Contains(s, "RidgeClassifier")
    ensures ExtractClfName(s) == "Unknown" <==>
      forall p :: p in Priority ==> !Contains(s, p.0)
  {
  }

  /** The same mapping written as a table of (substring, family) pairs,
      highest priority first. */
  const Priority: seq<(string, string)> := [
    ("RandomForestClassifier", "RandomForest"),
    ("KNeighborsClassifier", "KNeighbors"),
    ("SVC", "SVC"),
    ("RidgeClassifier", "Ridge"),
    ("LogisticRegression", "Logistic")
  ]

  /** No table entry before position `k` has its substring in `s`. */
  predicate NoMatchBefore(table: seq<(string, string)>, s: string, k: int)
    requires k <= |table|
  {
    forall j :: 0 <= j < k ==> !Contains(s, table[j].0)
  }

  /** The family of the first table entry whose substring occurs in `s`:
      a found family belongs to an entry that occurs with no earlier entry
      occurring, and when no family is itself called "Unknown", the result
      is "Unknown" exactly when no entry occurs. */
  function FirstMatch(table: seq<(string, string)>, s: string): (r: string)
    ensures r != "Unknown" ==>
      exists k :: 0 <= k < |table| && r == table[k].1 && Contains(s, table[k].0) && NoMatchBefore(table, s, k)
    ensures (forall k :: 0 <= k < |table| ==> table[k].1 != "Unknown") ==>
      (r == "Unknown" <==> NoMatchBefore(table, s, |table|))
  {
    if |table| == 0 then "Unknown"
    else if Contains(s, table[0].0) then
      assert NoMatchBefore(table, s, 0);
      table[0].1
    else
      var rest := FirstMatch(table[1..], s);
      assert forall k :: 0 <= k < |table| - 1 && NoMatchBefore(table[1..], s, k) ==> NoMatchBefore(table, s, k + 1);
      assert NoMatchBefore(table[1..], s, |table| - 1) ==> NoMatchBefore(table, s, |table|);
      assert forall k :: 0 <= k < |table| - 1 ==> table[1..][k] == table[k + 1];
      rest
  }

  /** The if-chain and the priority table agree on every input. */
  lemma ExtractMatchesTable(s: string)
    ensures ExtractClfName(s) == FirstMatch(Priority, s)
  {
    var t := Priority;
    assert FirstMatch(t[4..], s) == (if Contains(s, "LogisticRegression") then "Logistic" else FirstMatch(t[5..], s));
    assert FirstMatch(t[3..], s) == (if Contains(s, "RidgeClassifier") then "Ridge" else FirstMatch(t[4..], s));
    assert FirstMatch(t[2..], s) == (if Contains(s, "SVC") then "SVC" else FirstMatch(t[3..], s));
    assert FirstMatch(t[1..], s) == (if Contains(s, "KNeighborsClassifier") then "KNeighbors" else FirstMatch(t[2..], s));
  }

  /** A substring only uses characters of the string that contains it. */
  lemma ContainsChars(s: string, t: string)
    requires Contains(s, t)
    ensures |t| <= |s|
    ensures forall c :: c in t ==> c in s
  {
    var i :| 0 <= i <= |s| - |t| && OccursAt(s, t, i);
    assert t <= s[i..];
    forall c | c in t
      ensures c in s
    {
      var j :| 0 <= j < |t| && t[j] == c;
      assert s[i..][j] == c;
    }
  }

  /** Tagging the bare class name of each known estimator recovers its family. */
  lemma ClassNamesRecoverFamily()
    ensures forall k :: 0 <= k < |Priority| ==> ExtractClfName(Priority[k].0) == Priority[k].1
  {
    TagOfRandomForest();
    TagOfKNeighbors();
    TagOfSvc();
    TagOfRidge();
    TagOfLogistic();
  }

  lemma TagOfRandomForest()
    ensures ExtractClfName("RandomForestClassifier") == "RandomForest"
  {
    SelfContained("RandomForestClassifier");
  }

  lemma TagOfKNeighbors()
    ensures ExtractClfName("KNeighborsClassifier") == "KNeighbors"
  {
    SelfContained("KNeighborsClassifier");
    NotContained("KNeighborsClassifier", "RandomForestClassifier");
  }

  lemma TagOfSvc()
    ensures ExtractClfName("SVC") == "SVC"
  {
    SelfContained("SVC");
    NotContained("SVC", "RandomForestClassifier");
    NotContained("SVC", "KNeighborsClassifier");
  }

  lemma TagOfRidge()
    ensures ExtractClfName("RidgeClassifier") == "Ridge"
  {
    SelfContained("RidgeClassifier");
    NotContained("RidgeClassifier", "RandomForestClassifier");
    NotContained("RidgeClassifier", "KNeighborsClassifier");
    NotContainedChar("RidgeClassifier", "SVC", 'S');
  }

  lemma TagOfLogistic()
    ensures ExtractClfName("LogisticRegression") == "Logistic"
  {
    SelfContained("LogisticRegression");
    NotContained("LogisticRegression", "RandomForestClassifier");
    NotContained("LogisticRegression", "KNeighborsClassifier");
    NotContainedChar("LogisticRegression", "SVC", 'S');
    NotContainedChar("LogisticRegression", "RidgeClassifier", 'd');
  }

  lemma SelfContained(s: string)
    ensures Contains(s, s)
  {
    assert OccursAt(s, s, 0);
  }

  lemma NotContained(s: string, t: string)
    requires |s| < |t|
    ensures !Contains(s, t)
  {
    if Contains(s, t) { ContainsChars(s, t); }
  }

  lemma NotContainedChar(s: string, t: string, c: char)
    requires c in t && c !in s
    ensures !Contains(s, t)
  {
    if Contains(s, t) { ContainsChars(s, t); }
  }
}
