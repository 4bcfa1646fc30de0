/** What an abbreviated result still says: a relation between a value and its abbreviation, defined without
    the code that abbreviates. */
module Abbreviation {
  import opened Arithmetic
  import opened JsonValues
  import opened JsonSize
  import opened Sampling

  // --- Texts ---

  /** A text within the limit is told whole; of a longer one a beginning, and that it was cut. */
  predicate ClippedTo(s: string, limit: int, r: string) {
    if |s| <= limit then r == s
    else |r| == Max(14, limit) && r[|r| - 14..] == "…[abbreviated]" && r[..|r| - 14] <= s
  }

  lemma ClippedTells(s: string, limit: int)
    ensures ClippedTo(s, limit, Clipped(s, limit))
  {
    if |s| > limit {
      var r, n := Clipped(s, limit), Max(0, limit - 14);
      assert r[..n] == s[..n] && r[n..] == ELLIPSIS;
    }
  }

  // --- Logs ---

  /** How an entry of a log reads. */
  predicate Reads(text: Text, entry: Json, line: string) {
    match entry
    case JStr(s) => line == s
    case JObj(fields) =>
      if !Has(fields, "message") then line == ""
      else if Get(fields, "message").JStr? then line == Get(fields, "message").s
      else line == text.show(Get(fields, "message"))
    case _ => line == text.show(entry)
  }

  predicate IsLog(f: Field) {
    (f.key == "lines" || f.key == "entries" || f.key == "output") && (f.value.JStr? || f.value.JArr?)
  }

  /** The lines of a log, one for each entry. */
  predicate LinesOf(text: Text, log: Json, lines: seq<string>) {
    if log.JStr? then lines == text.splitLines(log.s)
    else log.JArr? && |lines| == |log.items| && forall i | 0 <= i < |lines| :: Reads(text, log.items[i], lines[i])
  }

  /** Places `a` and `b` are the first and the last error of the log. */
  predicate ErrorsSpan(text: Text, lines: seq<string>, a: nat, b: nat) {
    && a <= b < |lines| && text.isError(lines[a]) && text.isError(lines[b])
    && (forall i | 0 <= i < a :: !text.isError(lines[i])) && forall i | b < i < |lines| :: !text.isError(lines[i])
  }

  function Once(x: string, y: string): seq<string> {
    if x == y then [x] else [x, y]
  }

  /** What is shown of a log: its first and last error, or without any error its last two lines. */
  ghost predicate ShownOf(text: Text, lines: seq<string>, shown: seq<string>) {
    if exists i | 0 <= i < |lines| :: text.isError(lines[i])
    then exists a: nat, b: nat :: ErrorsSpan(text, lines, a, b) && shown == Once(lines[a], lines[b])
    else if |lines| < 2 then shown == lines
    else shown == Once(lines[|lines| - 2], lines[|lines| - 1])
  }

  /** The excerpt lists what is shown of the log, clipped, and no more of it than fits the limit. */
  ghost predicate Excerpt(text: Text, log: Json, r: Json, textLimit: int, itemLimit: nat) {
    exists lines, shown :: LinesOf(text, log, lines) && ShownOf(text, lines, shown)
      && ListsClipped(shown, r, textLimit, itemLimit)
  }

  predicate ListsClipped(shown: seq<string>, r: Json, textLimit: int, itemLimit: nat) {
    && r.JArr? && |r.items| == Min(|shown|, itemLimit)
    && forall i | 0 <= i < |r.items| :: r.items[i].JStr? && ClippedTo(shown[i], textLimit, r.items[i].s)
  }

  // --- Values ---

  /** What marks an item of a list as a finding to keep. */
  predicate LooksFailed(text: Text, item: Json) {
    if !item.JObj? then text.isError(text.show(item))
    else
      || IsValue(item.fields, "healthy", JBool(false)) || IsValue(item.fields, "open", JBool(false))
      || IsValue(item.fields, "reachable", JBool(false))
      || IsValue(item.fields, "health", JStr("unhealthy")) || IsValue(item.fields, "health", JStr("starting"))
      || (exists state | state in ["exited", "restarting", "dead", "DOWN", "inactive"] ::
            IsValue(item.fields, "state", JStr(state)))
      || IsSet(item.fields, "soft_blocked") || IsSet(item.fields, "hard_blocked")
  }

  predicate IsValue(fields: seq<Field>, key: string, value: Json) {
    Has(fields, key) && Get(fields, key) == value
  }

  /** The field is there, and neither null, false, zero nor empty. */
  predicate IsSet(fields: seq<Field>, key: string) {
    && Has(fields, key)
    && Get(fields, key) !in [JNull, JBool(false), JInt(0), JStr(""), JArr([]), JObj([])]
  }

  /** As many different items as the limit allows: all in order where it allows all, and otherwise no finding
      is left out for an item that is none. */
  ghost predicate Picks(text: Text, items: seq<Json>, picks: seq<nat>, limit: nat) {
    && |picks| == Min(|items|, limit)
    && (forall k | 0 <= k < |picks| :: picks[k] < |items|)
    && (forall j, k | 0 <= j < k < |picks| :: picks[j] != picks[k])
    && (|items| <= limit ==> forall k | 0 <= k < |picks| :: picks[k] == k)
    && (forall p, k | 0 <= p < |items| && p !in picks && 0 <= k < |picks| ::
          LooksFailed(text, items[p]) ==> LooksFailed(text, items[picks[k]]))
  }

  /** `r` tells of `v`: texts are clipped, scalars are as they were, every item is one of the list, every
      field is one of the object or counts what was left out, and below the fifth level nothing is told. */
  ghost predicate Abbreviates(text: Text, v: Json, r: Json, textLimit: int, itemLimit: nat, depth: nat)
    decreases v, 1
  {
    match v
    case JStr(s) => r.JStr? && ClippedTo(s, textLimit, r.s)
    case JArr(items) =>
      r.JArr? && exists picks: seq<nat> ::
        && Picks(text, items, picks, itemLimit) && |r.items| == |picks|
        && forall k | 0 <= k < |picks| ::
           Abbreviates(text, items[picks[k]], r.items[k], textLimit, itemLimit, depth + 1)
    case JObj(fields) =>
      if depth > 4
      then r == JObj([Field("_context_note", JStr("Nested details omitted; original observation is persisted."))])
      else
        && r.JObj? && KeysShown(fields, r.fields)
        && forall g | g in r.fields ::
             Told(text, fields, g, textLimit, itemLimit, depth) || Counted(text, fields, g, itemLimit)
    case _ => r == v
  }

  /** The field is one of the object, with its own value abbreviated. */
  ghost predicate Told(text: Text, fields: seq<Field>, g: Field, textLimit: int, itemLimit: nat, depth: nat)
    decreases fields, 0
  {
    exists f | f in fields ::
      && f.key == g.key
      && if IsLog(f) then Excerpt(text, f.value, g.value, textLimit, itemLimit)
         else Abbreviates(text, f.value, g.value, textLimit, itemLimit, depth + 1)
  }

  /** The field counts the items of a list that is not told whole, or the lines of a log. */
  ghost predicate Counted(text: Text, fields: seq<Field>, g: Field, itemLimit: nat) {
    exists f | f in fields ::
      if IsLog(f) then
        && g.key == "_context_total_log_entries"
        && exists lines :: LinesOf(text, f.value, lines) && g.value == JInt(|lines|)
      else f.value.JArr? && |f.value.items| > itemLimit && g == Field("_context_total_" + f.key, JInt(|f.value.items|))
  }

  /** Twenty keys are shown, or all; no important one is left out for one that is not. */
  ghost predicate KeysShown(fields: seq<Field>, r: seq<Field>) {
    exists shown: seq<nat> :: ShowsKeys(fields, r, shown)
  }

  ghost predicate ShowsKeys(fields: seq<Field>, r: seq<Field>, shown: seq<nat>) {
    && |shown| == Min(|fields|, 20)
    && (forall k | 0 <= k < |shown| :: shown[k] < |fields| && Has(r, fields[shown[k]].key))
    && (forall j, k | 0 <= j < k < |shown| :: shown[j] != shown[k])
    && (forall p, k | 0 <= p < |fields| && p !in shown && 0 <= k < |shown| ::
          fields[p].key in IMPORTANT ==> fields[shown[k]].key in IMPORTANT)
  }

  // --- Lists: which items are chosen ---

  lemma SetExactly(fields: seq<Field>, key: string)
    ensures Truthy(Lookup(JObj(fields), key)) <==> IsSet(fields, key)
  {
  }

  lemma StatesExactly(fields: seq<Field>)
    ensures IsText(Lookup(JObj(fields), "state"), {"exited", "restarting", "dead", "DOWN", "inactive"})
      <==> exists state | state in ["exited", "restarting", "dead", "DOWN", "inactive"] ::
        IsValue(fields, "state", JStr(state))
  {
    var states := ["exited", "restarting", "dead", "DOWN", "inactive"];
    assert states[0] == "exited" && states[1] == "restarting" && states[2] == "dead" && states[3] == "DOWN"
      && states[4] == "inactive";
    if Has(fields, "state") && Get(fields, "state").JStr? && Get(fields, "state").s in states {
      assert IsValue(fields, "state", JStr(Get(fields, "state").s));
    }
  }

  lemma InterestingExactly(text: Text, item: Json)
    ensures Interesting(text, item) <==> LooksFailed(text, item)
  {
    if item.JObj? {
      StatesExactly(item.fields);
      SetExactly(item.fields, "soft_blocked");
      SetExactly(item.fields, "hard_blocked");
      HealthExactly(item.fields);
    }
  }

  lemma HealthExactly(fields: seq<Field>)
    ensures IsText(Lookup(JObj(fields), "health"), {"unhealthy", "starting"})
      <==> IsValue(fields, "health", JStr("unhealthy")) || IsValue(fields, "health", JStr("starting"))
  {
  }

  // The positions of the items that are chosen, found along the recursion of the code

  /** Places in a list, in order. */
  predicate Ascending(places: seq<nat>, n: nat) {
    (forall k | 0 <= k < |places| :: places[k] < n) && forall j, k | 0 <= j < k < |places| :: places[j] < places[k]
  }

  /** `places` are where `those` stand in the list: all places of items of this kind. */
  ghost predicate PlacesOf<T>(items: seq<T>, kind: T -> bool, places: seq<nat>, those: seq<T>) {
    && Ascending(places, |items|) && |places| == |those|
    && (forall k | 0 <= k < |places| :: those[k] == items[places[k]])
    && forall p: nat | p < |items| :: p in places <==> kind(items[p])
  }

  /** All places but possibly the last. */
  ghost predicate AllButLast<T>(items: seq<T>, kind: T -> bool, places: seq<nat>, those: seq<T>)
    requires items != []
  {
    && Ascending(places, |items| - 1) && |places| == |those|
    && (forall k | 0 <= k < |places| :: those[k] == items[places[k]])
    && forall p: nat | p < |items| - 1 :: p in places <==> kind(items[p])
  }

  lemma SamePlaces<T>(items: seq<T>, kind: T -> bool, places: seq<nat>, those: seq<T>)
    requires items != [] && PlacesOf(items[..|items| - 1], kind, places, those)
    ensures AllButLast(items, kind, places, those)
    ensures !kind(items[|items| - 1]) ==> PlacesOf(items, kind, places, those)
  {
    var last := |items| - 1;
    assert last !in places;
    forall p: nat | p < last ensures p in places <==> kind(items[p]) {
      assert items[..last][p] == items[p];
    }
  }

  lemma AddPlace<T>(items: seq<T>, kind: T -> bool, places: seq<nat>, those: seq<T>)
    requires items != [] && AllButLast(items, kind, places, those) && kind(items[|items| - 1])
    ensures PlacesOf(items, kind, places + [|items| - 1], those + [items[|items| - 1]])
  {
    var last := |items| - 1;
    var more := places + [last];
    forall p: nat | p < |items| ensures p in more <==> kind(items[p]) {
      assert p in more <==> p in places || p == last;
    }
  }

  function Last<T>(items: seq<T>, kind: T -> bool): seq<T>
    requires items != []
  {
    if kind(items[|items| - 1]) then [items[|items| - 1]] else []
  }

  lemma OneMorePlace<T>(items: seq<T>, kind: T -> bool, earlier: seq<nat>, those: seq<T>) returns (places: seq<nat>)
    requires items != [] && PlacesOf(items[..|items| - 1], kind, earlier, those)
    ensures PlacesOf(items, kind, places, those + Last(items, kind))
  {
    SamePlaces(items, kind, earlier, those);
    if kind(items[|items| - 1]) {
      AddPlace(items, kind, earlier, those);
      places := earlier + [|items| - 1];
    } else {
      assert those + [] == those;
      places := earlier;
    }
  }

  function Interest(text: Text, interesting: bool): Json -> bool {
    x => Interesting(text, x) == interesting
  }

  function Importance(important: bool): Field -> bool {
    (f: Field) => (f.key in IMPORTANT) == important
  }

  lemma {:induction false} ThosePlaces(text: Text, items: seq<Json>, interesting: bool) returns (places: seq<nat>)
    ensures PlacesOf(items, Interest(text, interesting), places, Those(text, items, interesting))
  {
    if items == [] {
      places := [];
    } else {
      var last := |items| - 1;
      var earlier := ThosePlaces(text, items[..last], interesting);
      ThoseLast(text, items, interesting);
      places := OneMorePlace(items, Interest(text, interesting), earlier, Those(text, items[..last], interesting));
    }
  }

  lemma {:induction false} ThoseLast(text: Text, items: seq<Json>, interesting: bool)
    requires items != []
    ensures var last := |items| - 1;
      Those(text, items, interesting)
      == Those(text, items[..last], interesting) + if Interesting(text, items[last]) == interesting then [items[last]]
        else []
  {
    if |items| > 1 {
      ThoseLast(text, items[1..], interesting);
      assert items[..|items| - 1][1..] == items[1..][..|items| - 2];
    }
  }

  lemma {:induction false} ImportancePlaces(fields: seq<Field>, important: bool) returns (places: seq<nat>)
    ensures PlacesOf(fields, Importance(important), places, ByImportance(fields, important))
  {
    if fields == [] {
      places := [];
    } else {
      var last := |fields| - 1;
      var earlier := ImportancePlaces(fields[..last], important);
      ImportanceLast(fields, important);
      places := OneMorePlace(fields, Importance(important), earlier, ByImportance(fields[..last], important));
    }
  }

  lemma {:induction false} ImportanceLast(fields: seq<Field>, important: bool)
    requires fields != []
    ensures var last := |fields| - 1;
      ByImportance(fields, important)
      == ByImportance(fields[..last], important) + if (fields[last].key in IMPORTANT) == important then [fields[last]]
        else []
  {
    if |fields| > 1 {
      ImportanceLast(fields[1..], important);
      assert fields[..|fields| - 1][1..] == fields[1..][..|fields| - 2];
    }
  }

  /** The chosen items are those at these places, which the rule allows. */
  ghost predicate Chosen(text: Text, items: seq<Json>, limit: nat, picks: seq<nat>)
    requires limit >= 1
  {
    && Picks(text, items, picks, limit) && |Choose(text, items, limit)| == |picks|
    && forall k | 0 <= k < |picks| :: Choose(text, items, limit)[k] == items[picks[k]]
  }

  lemma ChoosePicks(text: Text, items: seq<Json>, limit: nat) returns (picks: seq<nat>)
    requires limit >= 1
    ensures Chosen(text, items, limit, picks)
  {
    if |items| <= limit {
      picks := WholePicked(text, items, limit);
    } else {
      var f := ThosePlaces(text, items, true);
      var o := ThosePlaces(text, items, false);
      ThosePartition(text, items);
      if |f| > limit {
        picks := FirstAndLast(f, limit);
        FoundPlaces(text, items, f);
        FailuresPicked(text, items, f, Those(text, items, true), limit);
        ManyFailures(text, items, limit);
      } else {
        picks := (f + o)[..limit];
        BothPicked(text, items, f, o, limit);
        FewFailures(text, items, limit);
        FirstOfBoth(items, f, o, Those(text, items, true), Those(text, items, false), limit);
      }
    }
  }

  lemma WholePicked(text: Text, items: seq<Json>, limit: nat) returns (picks: seq<nat>)
    requires 1 <= limit && |items| <= limit
    ensures Chosen(text, items, limit, picks)
  {
    picks := seq(|items|, k => k);
    forall p: nat | p < |items| ensures p in picks { assert picks[p] == p; }
  }

  /** The first of a list and the last ones, `limit` in all. */
  function FirstAndLast<T>(s: seq<T>, limit: nat): (r: seq<T>)
    requires 1 <= limit < |s|
    ensures |r| == limit
    ensures r[0] == s[0] && forall k :: 1 <= k < limit ==> r[k] == s[k + |s| - limit]
  {
    if limit == 1 then s[..1] else s[..1] + s[|s| - (limit - 1)..]
  }

  lemma FirstAndLastOf<T>(items: seq<T>, f: seq<nat>, those: seq<T>, limit: nat)
    requires Ascending(f, |items|) && |f| == |those| && 1 <= limit < |f|
    requires forall k :: 0 <= k < |f| ==> those[k] == items[f[k]]
    ensures forall k :: 0 <= k < limit ==> FirstAndLast(f, limit)[k] < |items|
    ensures forall k :: 0 <= k < limit ==> FirstAndLast(those, limit)[k] == items[FirstAndLast(f, limit)[k]]
    ensures forall j, k :: 0 <= j < k < limit ==> FirstAndLast(f, limit)[j] != FirstAndLast(f, limit)[k]
  {
  }

  /** Places of findings only. */
  ghost predicate FailedPlaces(text: Text, items: seq<Json>, f: seq<nat>, failures: seq<Json>) {
    && Ascending(f, |items|) && |f| == |failures|
    && forall k | 0 <= k < |f| :: failures[k] == items[f[k]] && LooksFailed(text, items[f[k]])
  }

  lemma FoundPlaces(text: Text, items: seq<Json>, f: seq<nat>)
    requires PlacesOf(items, Interest(text, true), f, Those(text, items, true))
    ensures FailedPlaces(text, items, f, Those(text, items, true))
  {
    forall k | 0 <= k < |f| ensures LooksFailed(text, items[f[k]]) {
      assert f[k] in f;
      InterestingExactly(text, items[f[k]]);
    }
  }

  lemma FailuresPicked(text: Text, items: seq<Json>, f: seq<nat>, failures: seq<Json>, limit: nat)
    requires FailedPlaces(text, items, f, failures) && 1 <= limit < |f| && limit < |items|
    ensures Picks(text, items, FirstAndLast(f, limit), limit)
    ensures forall k :: 0 <= k < limit ==> FirstAndLast(failures, limit)[k] == items[FirstAndLast(f, limit)[k]]
  {
    FirstAndLastOf(items, f, failures, limit);
    var picks := FirstAndLast(f, limit);
    forall k | 0 <= k < limit ensures LooksFailed(text, items[picks[k]]) {
      assert picks[k] == f[if k == 0 then 0 else k + |f| - limit];
    }
  }

  lemma ManyFailures(text: Text, items: seq<Json>, limit: nat)
    requires 1 <= limit < |Those(text, items, true)| && limit < |items|
    ensures Choose(text, items, limit) == FirstAndLast(Those(text, items, true), limit)
  {
  }

  lemma FewFailures(text: Text, items: seq<Json>, limit: nat)
    requires 1 <= limit < |items| && |Those(text, items, true)| <= limit
    requires limit <= |Those(text, items, true)| + |Those(text, items, false)|
    ensures Choose(text, items, limit) == (Those(text, items, true) + Those(text, items, false))[..limit]
  {
  }

  lemma FirstOfBoth<T>(items: seq<T>, f: seq<nat>, o: seq<nat>, a: seq<T>, b: seq<T>, limit: nat)
    requires |f| == |a| && |o| == |b| && limit <= |f| + |o|
    requires forall k :: 0 <= k < |f| ==> f[k] < |items| && a[k] == items[f[k]]
    requires forall k :: 0 <= k < |o| ==> o[k] < |items| && b[k] == items[o[k]]
    ensures forall k :: 0 <= k < limit ==>
      (f + o)[..limit][k] < |items| && (a + b)[..limit][k] == items[(f + o)[..limit][k]]
  {
  }

  lemma BothApart(f: seq<nat>, o: seq<nat>, limit: nat, n: nat)
    requires Ascending(f, n) && Ascending(o, n) && |f| <= limit <= |f| + |o|
    requires forall k :: 0 <= k < |f| ==> f[k] !in o
    ensures var picks := (f + o)[..limit];
      && (forall k :: 0 <= k < |picks| ==> picks[k] < n)
      && forall j, k :: 0 <= j < k < |picks| ==> picks[j] != picks[k]
  {
    var picks := (f + o)[..limit];
    forall j, k | 0 <= j < k < |picks| ensures picks[j] != picks[k] {
      if j < |f| <= k { assert picks[k] == o[k - |f|]; }
    }
  }

  lemma BothPicked(text: Text, items: seq<Json>, f: seq<nat>, o: seq<nat>, limit: nat)
    requires PlacesOf(items, Interest(text, true), f, Those(text, items, true))
    requires PlacesOf(items, Interest(text, false), o, Those(text, items, false))
    requires |f| <= limit < |items| && |f| + |o| == |items|
    ensures Picks(text, items, (f + o)[..limit], limit)
  {
    var picks := (f + o)[..limit];
    forall k | 0 <= k < |f| ensures f[k] !in o { assert f[k] in f; }
    BothApart(f, o, limit, |items|);
    forall p | 0 <= p < |items| && LooksFailed(text, items[p]) ensures p in picks {
      InterestingExactly(text, items[p]);
      assert p in f;
      var m :| 0 <= m < |f| && f[m] == p;
      assert picks[m] == p;
    }
  }

  // --- Objects: which keys are shown ---

  lemma {:induction false} ImportancePartition(fields: seq<Field>)
    ensures |ByImportance(fields, true)| + |ByImportance(fields, false)| == |fields|
  {
    if fields != [] { ImportancePartition(fields[1..]); }
  }

  /** The places of the keys that are kept. */
  ghost predicate KeptAt(fields: seq<Field>, places: seq<nat>) {
    && |places| == |Kept(fields)| == Min(|fields|, 20)
    && (forall k | 0 <= k < |places| :: places[k] < |fields| && Kept(fields)[k] == fields[places[k]])
    && (forall j, k | 0 <= j < k < |places| :: places[j] != places[k])
    && (forall p, k | 0 <= p < |fields| && p !in places && 0 <= k < |places| ::
          fields[p].key in IMPORTANT ==> fields[places[k]].key in IMPORTANT)
  }

  lemma KeptPlaces(fields: seq<Field>) returns (places: seq<nat>)
    ensures KeptAt(fields, places)
  {
    var i := ImportancePlaces(fields, true);
    var o := ImportancePlaces(fields, false);
    ImportancePartition(fields);
    var limit := Min(|fields|, 20);
    places := (i + o)[..limit];
    FirstOfBoth(fields, i, o, ByImportance(fields, true), ByImportance(fields, false), limit);
    KeptApart(fields, i, o, limit);
    KindFirst(fields, Importance(true), i, ByImportance(fields, true), o, limit);
    forall p: nat, k: nat | p < |fields| && p !in places && k < |places|
      ensures fields[p].key in IMPORTANT ==> fields[places[k]].key in IMPORTANT
    {
      ImportantFirst(fields, places, p, k);
    }
  }

  lemma KeptApart(fields: seq<Field>, i: seq<nat>, o: seq<nat>, limit: nat)
    requires PlacesOf(fields, Importance(true), i, ByImportance(fields, true))
    requires PlacesOf(fields, Importance(false), o, ByImportance(fields, false))
    requires limit <= |i| + |o|
    ensures var places := (i + o)[..limit]; forall j, k :: 0 <= j < k < limit ==> places[j] != places[k]
  {
    forall k | 0 <= k < |i| ensures i[k] !in o { assert i[k] in i; }
    if |i| <= limit { BothApart(i, o, limit, |fields|); } else { assert (i + o)[..limit] == i[..limit]; }
  }

  lemma PrefixHas(i: seq<nat>, o: seq<nat>, limit: nat, p: nat)
    requires p in i && |i| <= limit <= |i| + |o|
    ensures p in (i + o)[..limit]
  {
    var m :| 0 <= m < |i| && i[m] == p;
    assert (i + o)[..limit][m] == p;
  }

  lemma OfKind<T>(items: seq<T>, kind: T -> bool, places: seq<nat>, those: seq<T>, k: nat)
    requires PlacesOf(items, kind, places, those) && k < |places|
    ensures places[k] < |items| && kind(items[places[k]])
  {
    assert places[k] in places;
  }

  /** No item of this kind is left out for one that is not. */
  ghost predicate First<T>(items: seq<T>, kind: T -> bool, places: seq<nat>) {
    || (forall p: nat | p < |items| :: kind(items[p]) ==> p in places)
    || (forall k | 0 <= k < |places| :: places[k] < |items| && kind(items[places[k]]))
  }

  lemma KindFirst<T>(items: seq<T>, kind: T -> bool, i: seq<nat>, those: seq<T>, o: seq<nat>, limit: nat)
    requires PlacesOf(items, kind, i, those) && limit <= |i| + |o|
    ensures First(items, kind, (i + o)[..limit])
  {
    var places := (i + o)[..limit];
    if |i| <= limit {
      forall p: nat | p < |items| && kind(items[p]) ensures p in places { PrefixHas(i, o, limit, p); }
    } else {
      forall k | 0 <= k < |places| ensures places[k] < |items| && kind(items[places[k]]) {
        assert places[k] == i[k];
        OfKind(items, kind, i, those, k);
      }
    }
  }

  lemma ImportantFirst(fields: seq<Field>, places: seq<nat>, p: nat, k: nat)
    requires First(fields, Importance(true), places)
    requires p < |fields| && p !in places && k < |places| && places[k] < |fields|
    ensures fields[p].key in IMPORTANT ==> fields[places[k]].key in IMPORTANT
  {
  }

  // --- Logs: what is shown of them ---

  lemma {:induction false} NoErrors(text: Text, lines: seq<string>)
    ensures ErrorLines(text, lines) == [] <==> forall i :: 0 <= i < |lines| ==> !text.isError(lines[i])
  {
    if lines != [] {
      NoErrors(text, lines[1..]);
      assert forall i :: 1 <= i < |lines| ==> lines[i] == lines[1..][i - 1];
    }
  }

  lemma {:induction false} ErrorLinesSpan(text: Text, lines: seq<string>) returns (a: nat, b: nat)
    requires ErrorLines(text, lines) != []
    ensures ErrorsSpan(text, lines, a, b)
    ensures var errors := ErrorLines(text, lines); lines[a] == errors[0] && lines[b] == errors[|errors| - 1]
  {
    var rest := lines[1..];
    NoErrors(text, rest);
    assert forall i :: 1 <= i < |lines| ==> lines[i] == rest[i - 1];
    if ErrorLines(text, rest) == [] {
      a, b := 0, 0;
    } else {
      var c, d := ErrorLinesSpan(text, rest);
      a, b := if text.isError(lines[0]) then 0 else c + 1, d + 1;
    }
  }

  lemma ExcerptsShown(text: Text, lines: seq<string>)
    ensures ShownOf(text, lines, Excerpts(text, lines))
  {
    NoErrors(text, lines);
    if ErrorLines(text, lines) != [] { ErrorsShown(text, lines); } else { EndShown(text, lines); }
  }

  lemma ErrorsShown(text: Text, lines: seq<string>)
    requires ErrorLines(text, lines) != []
    ensures exists a: nat, b: nat :: ErrorsSpan(text, lines, a, b) && Excerpts(text, lines) == Once(lines[a], lines[b])
  {
    var a, b := ErrorLinesSpan(text, lines);
    var errors := ErrorLines(text, lines);
    assert Excerpts(text, lines) == Once(errors[0], errors[|errors| - 1]);
  }

  lemma EndShown(text: Text, lines: seq<string>)
    requires ErrorLines(text, lines) == []
    ensures Excerpts(text, lines)
      == if |lines| < 2 then lines else Once(lines[|lines| - 2], lines[|lines| - 1])
  {
    var chosen := lines[Max(0, |lines| - 2)..];
    if |lines| >= 2 {
      assert chosen == [lines[|lines| - 2], lines[|lines| - 1]];
    } else {
      assert chosen == lines;
    }
    assert Excerpts(text, lines) == if |chosen| == 2 && chosen[0] == chosen[1] then [chosen[0]] else chosen;
  }

  lemma {:induction false} LineTextsRead(text: Text, entries: seq<Json>)
    ensures |LineTexts(text, entries)| == |entries|
    ensures forall i :: 0 <= i < |entries| ==> Reads(text, entries[i], LineTexts(text, entries)[i])
  {
    if entries != [] {
      LineTextsRead(text, entries[1..]);
      LineReads(text, entries[0]);
      assert forall i :: 1 <= i < |entries| ==> entries[i] == entries[1..][i - 1];
    }
  }

  lemma LineReads(text: Text, entry: Json)
    ensures Reads(text, entry, LineText(text, entry))
  {
  }

  lemma LogLinesExactly(text: Text, f: Field)
    ensures LogLines(text, f).Some? <==> IsLog(f)
    ensures LogLines(text, f).Some? ==> LinesOf(text, f.value, LogLines(text, f).value)
  {
    if f.value.JArr? { LineTextsRead(text, f.value.items); }
  }

  lemma {:induction false} ClippedItemsTell(lines: seq<string>, limit: int)
    ensures |ClippedItems(lines, limit)| == |lines|
    ensures forall i :: 0 <= i < |lines| ==>
      ClippedItems(lines, limit)[i].JStr? && ClippedTo(lines[i], limit, ClippedItems(lines, limit)[i].s)
  {
    if lines != [] {
      ClippedTells(lines[0], limit);
      ClippedItemsTell(lines[1..], limit);
    }
  }

  lemma LogExcerpt(text: Text, f: Field, textLimit: int, itemLimit: nat)
    requires IsLog(f) && LogLines(text, f).Some?
    ensures var excerpts := ClippedItems(Excerpts(text, LogLines(text, f).value), textLimit);
      Excerpt(text, f.value, JArr(excerpts[..Min(|excerpts|, Min(2, itemLimit))]), textLimit, itemLimit)
  {
    var lines := LogLines(text, f).value;
    var shown := Excerpts(text, lines);
    LogLinesExactly(text, f);
    ExcerptsShown(text, lines);
    ClippedItemsTell(shown, textLimit);
    var excerpts := ClippedItems(shown, textLimit);
    assert |shown| <= 2;
    assert ListsClipped(shown, JArr(excerpts[..Min(|excerpts|, Min(2, itemLimit))]), textLimit, itemLimit);
  }

  // --- What is sampled tells of the value ---

  /** A field of an abbreviated object is told or counted. */
  ghost predicate Says(text: Text, fields: seq<Field>, g: Field, textLimit: int, itemLimit: nat, depth: nat) {
    Told(text, fields, g, textLimit, itemLimit, depth) || Counted(text, fields, g, itemLimit)
  }

  lemma {:induction false} PutMembers(fields: seq<Field>, key: string, value: Json, g: Field)
    requires g in Put(fields, key, value)
    ensures g == Field(key, value) || g in fields
  {
    if fields != [] && fields[0].key != key {
      if g in Put(fields[1..], key, value) { PutMembers(fields[1..], key, value, g); }
    }
  }

  lemma {:induction false} SampledTells(text: Text, v: Json, textLimit: int, itemLimit: nat, depth: nat)
    requires itemLimit >= 1
    ensures Abbreviates(text, v, Sampled(text, v, textLimit, itemLimit, depth), textLimit, itemLimit, depth)
    decreases v, 2
  {
    match v
    case JStr(s) => ClippedTells(s, textLimit);
    case JArr(items) => ItemsTell(text, items, textLimit, itemLimit, depth);
    case JObj(fields) => if depth <= 4 { ObjectTells(text, fields, textLimit, itemLimit, depth); }
    case _ =>
  }

  lemma {:induction false} SampledItemsAt(text: Text, items: seq<Json>, chosen: seq<Json>, textLimit: int,
                                          itemLimit: nat,
                                          depth: nat)
    requires itemLimit >= 1 && forall x :: x in chosen ==> x in items
    ensures var r := SampledItems(text, items, chosen, textLimit, itemLimit, depth);
      |r| == |chosen| && forall k :: 0 <= k < |r| ==> r[k] == Sampled(text, chosen[k], textLimit, itemLimit, depth + 1)
  {
    if chosen != [] { SampledItemsAt(text, items, chosen[1..], textLimit, itemLimit, depth); }
  }

  lemma {:induction false} ItemsTell(text: Text, items: seq<Json>, textLimit: int, itemLimit: nat, depth: nat)
    requires itemLimit >= 1
    ensures Abbreviates(text, JArr(items), Sampled(text, JArr(items), textLimit, itemLimit, depth), textLimit,
      itemLimit, depth)
    decreases items, 1
  {
    var chosen := Choose(text, items, itemLimit);
    var r := SampledItems(text, items, chosen, textLimit, itemLimit, depth);
    var picks := ChoosePicks(text, items, itemLimit);
    SampledItemsAt(text, items, chosen, textLimit, itemLimit, depth);
    forall k | 0 <= k < |picks|
      ensures picks[k] < |items| && Abbreviates(text, items[picks[k]], r[k], textLimit, itemLimit, depth + 1)
    {
      SampledTells(text, items[picks[k]], textLimit, itemLimit, depth + 1);
    }
  }

  lemma {:induction false} ObjectTells(text: Text, fields: seq<Field>, textLimit: int, itemLimit: nat, depth: nat)
    requires itemLimit >= 1 && depth <= 4
    ensures Abbreviates(text, JObj(fields), Sampled(text, JObj(fields), textLimit, itemLimit, depth), textLimit,
      itemLimit, depth)
    decreases fields, 1
  {
    var r := SampledFields(text, fields, Kept(fields), [], textLimit, itemLimit, depth);
    FieldsTell(text, fields, Kept(fields), [], textLimit, itemLimit, depth);
    var places := KeptPlaces(fields);
    forall k | 0 <= k < |places| ensures Has(r, fields[places[k]].key) { assert Kept(fields)[k] in Kept(fields); }
    assert ShowsKeys(fields, r, places);
    forall g | g in r
      ensures Told(text, fields, g, textLimit, itemLimit, depth) || Counted(text, fields, g, itemLimit)
    {
      assert Says(text, fields, g, textLimit, itemLimit, depth);
    }
  }

  /** The fields written so far say only what is so, and every kept key gets written. */
  lemma {:induction false} FieldsTell(text: Text, fields: seq<Field>, kept: seq<Field>, result: seq<Field>,
                                      textLimit: int,
                                      itemLimit: nat, depth: nat)
    requires itemLimit >= 1 && forall f :: f in kept ==> f in fields
    requires forall g :: g in result ==> Says(text, fields, g, textLimit, itemLimit, depth)
    ensures var r := SampledFields(text, fields, kept, result, textLimit, itemLimit, depth);
      && (forall g :: g in r ==> Says(text, fields, g, textLimit, itemLimit, depth))
      && (forall k :: Has(result, k) ==> Has(r, k)) && forall f :: f in kept ==> Has(r, f.key)
    decreases fields, 0, |kept|
  {
    if kept != [] {
      var next := WithField(text, fields, kept[0], result, textLimit, itemLimit, depth);
      FieldTells(text, fields, kept[0], result, textLimit, itemLimit, depth);
      FieldsTell(text, fields, kept[1..], next, textLimit, itemLimit, depth);
      forall f | f in kept ensures f == kept[0] || f in kept[1..] {}
    }
  }

  /** One turn of the loop over the kept keys. */
  lemma {:induction false} FieldTells(text: Text, fields: seq<Field>, f: Field, result: seq<Field>, textLimit: int,
                                      itemLimit: nat, depth: nat)
    requires itemLimit >= 1 && f in fields
    requires forall g :: g in result ==> Says(text, fields, g, textLimit, itemLimit, depth)
    ensures var next := WithField(text, fields, f, result, textLimit, itemLimit, depth);
      && (forall g :: g in next ==> Says(text, fields, g, textLimit, itemLimit, depth))
      && Has(next, f.key) && forall k :: Has(result, k) ==> Has(next, k)
    decreases fields, 0, 0
  {
    LogLinesExactly(text, f);
    if IsLog(f) {
      LogFieldTells(text, fields, f, result, textLimit, itemLimit, depth);
    } else {
      SampledTells(text, f.value, textLimit, itemLimit, depth + 1);
      ValueFieldTells(text, fields, f, result, textLimit, itemLimit, depth);
    }
  }

  /** Two assignments of fields that say what is so. */
  lemma PutSays(text: Text, fields: seq<Field>, result: seq<Field>, key: string, value: Json, textLimit: int,
                itemLimit: nat, depth: nat)
    requires forall g :: g in result ==> Says(text, fields, g, textLimit, itemLimit, depth)
    requires Says(text, fields, Field(key, value), textLimit, itemLimit, depth)
    ensures forall g :: g in Put(result, key, value) ==> Says(text, fields, g, textLimit, itemLimit, depth)
    ensures Has(Put(result, key, value), key) && forall k :: Has(result, k) ==> Has(Put(result, key, value), k)
  {
    forall g | g in Put(result, key, value) ensures Says(text, fields, g, textLimit, itemLimit, depth) {
      PutMembers(result, key, value, g);
    }
    forall k ensures Has(Put(result, key, value), k) == (k == key || Has(result, k)) { PutGet(result, key, value, k); }
  }

  lemma LogFieldTells(text: Text, fields: seq<Field>, f: Field, result: seq<Field>, textLimit: int, itemLimit: nat,
                      depth: nat)
    requires itemLimit >= 1 && f in fields && IsLog(f) && LogLines(text, f).Some?
    requires forall g :: g in result ==> Says(text, fields, g, textLimit, itemLimit, depth)
    ensures var next := WithField(text, fields, f, result, textLimit, itemLimit, depth);
      && (forall g :: g in next ==> Says(text, fields, g, textLimit, itemLimit, depth))
      && Has(next, f.key) && forall k :: Has(result, k) ==> Has(next, k)
  {
    var lines := LogLines(text, f).value;
    var excerpts := ClippedItems(Excerpts(text, lines), textLimit);
    var excerpt := JArr(excerpts[..Min(|excerpts|, Min(2, itemLimit))]);
    LogExcerpt(text, f, textLimit, itemLimit);
    LogLinesExactly(text, f);
    assert Told(text, fields, Field(f.key, excerpt), textLimit, itemLimit, depth);
    assert Counted(text, fields, Field("_context_total_log_entries", JInt(|lines|)), itemLimit);
    PutSays(text, fields, result, f.key, excerpt, textLimit, itemLimit, depth);
    PutSays(text, fields, Put(result, f.key, excerpt), "_context_total_log_entries", JInt(|lines|), textLimit,
      itemLimit, depth);
  }

  lemma ValueFieldTells(text: Text, fields: seq<Field>, f: Field, result: seq<Field>, textLimit: int, itemLimit: nat,
                        depth: nat)
    requires itemLimit >= 1 && f in fields && !IsLog(f) && LogLines(text, f).None?
    requires var value := Sampled(text, f.value, textLimit, itemLimit, depth + 1);
      Abbreviates(text, f.value, value, textLimit, itemLimit, depth + 1)
    requires forall g :: g in result ==> Says(text, fields, g, textLimit, itemLimit, depth)
    ensures var next := WithField(text, fields, f, result, textLimit, itemLimit, depth);
      && (forall g :: g in next ==> Says(text, fields, g, textLimit, itemLimit, depth))
      && Has(next, f.key) && forall k :: Has(result, k) ==> Has(next, k)
  {
    var value := Sampled(text, f.value, textLimit, itemLimit, depth + 1);
    assert Told(text, fields, Field(f.key, value), textLimit, itemLimit, depth);
    PutSays(text, fields, result, f.key, value, textLimit, itemLimit, depth);
    if f.value.JArr? && |f.value.items| > itemLimit {
      var count := JInt(|f.value.items|);
      assert Counted(text, fields, Field("_context_total_" + f.key, count), itemLimit);
      PutSays(text, fields, Put(result, f.key, value), "_context_total_" + f.key, count, textLimit, itemLimit, depth);
    }
  }

  // --- compact_result ---

  /** The limits on text and items in each of the four rounds. */
  predicate Limits(round: nat, textLimit: int, itemLimit: nat) {
    || (round == 0 && textLimit == 220 && itemLimit == 6) || (round == 1 && textLimit == 140 && itemLimit == 4)
    || (round == 2 && textLimit == 90 && itemLimit == 2) || (round == 3 && textLimit == 60 && itemLimit == 1)
  }

  /** `r` abbreviates the result as this round does, and says so. */
  ghost predicate OfRound(text: Text, original: seq<Field>, r: seq<Field>, round: nat) {
    exists core: seq<Field>, textLimit: int, itemLimit: nat ::
      && Limits(round, textLimit, itemLimit)
      && Abbreviates(text, JObj(original), JObj(core), textLimit, itemLimit, 0)
      && r == Put(core, "_context_abbreviated", JBool(true))
  }

  /** Place `k` of the result's lines holds the first text that is an error. */
  predicate FirstErrorAt(text: Text, original: seq<Field>, k: nat) {
    && Has(original, "lines") && Get(original, "lines").JArr?
    && var items := Get(original, "lines").items;
       && k < |items| && items[k].JStr? && text.isError(items[k].s)
       && forall j | 0 <= j < k :: items[j].JStr? ==> !text.isError(items[j].s)
  }

  /** `r` shows the first error among the lines, and says that the result is abbreviated. */
  ghost predicate OfError(text: Text, original: seq<Field>, r: seq<Field>, budget: int) {
    exists k: nat, c: string ::
      && FirstErrorAt(text, original, k) && Get(original, "lines").items[k].s != ""
      && ClippedTo(Get(original, "lines").items[k].s, Max(20, budget - 55), c)
      && r == [Field("lines", JArr([JStr(c)])), Field("_context_abbreviated", JBool(true))]
  }

  /** `r` is the summary, clipped. */
  ghost predicate OfSummary(summary: string, r: seq<Field>, budget: int) {
    exists c: string :: ClippedTo(summary, Max(0, budget - 40), c) && r == [Field("_context_summary", JStr(c))]
  }

  /** A result that fits is untouched. Another is told by the first round that fits; where none does by the
      first error among its lines, if that fits, and otherwise by its summary. */
  ghost predicate Tells(text: Text, original: seq<Field>, r: seq<Field>, budget: int, summary: string) {
    if Size(JObj(original)) <= budget then r == original
    else if exists round | 0 <= round < 4 :: Size(JObj(Candidate(text, original, round))) <= budget then
      exists round: nat | round < 4 :: FirstFit(text, original, r, budget, round)
    else if exists e :: OfError(text, original, e, budget) && Size(JObj(e)) <= budget then
      OfError(text, original, r, budget) && Size(JObj(r)) <= budget
    else OfSummary(summary, r, budget)
  }

  /** `r` is what this round makes of the result, and no earlier round's fits. */
  ghost predicate FirstFit(text: Text, original: seq<Field>, r: seq<Field>, budget: int, round: nat)
    requires round < 4
  {
    && r == Candidate(text, original, round) && OfRound(text, original, r, round) && Size(JObj(r)) <= budget
    && forall k | 0 <= k < round :: Size(JObj(Candidate(text, original, k))) > budget
  }

  lemma CandidateIsOfRound(text: Text, original: seq<Field>, round: nat)
    requires round < 4
    ensures OfRound(text, original, Candidate(text, original, round), round)
  {
    var textLimit, itemLimit := ROUNDS[round].0, ROUNDS[round].1;
    var core := Sampled(text, JObj(original), textLimit, itemLimit, 0).fields;
    SampledTells(text, JObj(original), textLimit, itemLimit, 0);
    assert Limits(round, textLimit, itemLimit);
    assert Candidate(text, original, round) == Put(core, "_context_abbreviated", JBool(true));
  }

  lemma {:induction false} FirstErrorExactly(text: Text, items: seq<Json>, k: nat)
    requires k < |items| && items[k].JStr? && text.isError(items[k].s)
    requires forall j :: 0 <= j < k ==> items[j].JStr? ==> !text.isError(items[j].s)
    ensures FirstError(text, items) == Some(items[k].s)
  {
    if k > 0 {
      assert forall j :: 0 <= j < k - 1 ==> items[1..][j] == items[j + 1];
      FirstErrorExactly(text, items[1..], k - 1);
    }
  }

  lemma {:induction false} FirstErrorPlace(text: Text, items: seq<Json>) returns (k: nat)
    requires FirstError(text, items).Some?
    ensures k < |items| && items[k].JStr? && text.isError(items[k].s) && FirstError(text, items) == Some(items[k].s)
    ensures forall j :: 0 <= j < k ==> items[j].JStr? ==> !text.isError(items[j].s)
  {
    if items[0].JStr? && text.isError(items[0].s) {
      k := 0;
    } else {
      k := FirstErrorPlace(text, items[1..]);
      assert forall j :: 1 <= j < |items| ==> items[j] == items[1..][j - 1];
      k := k + 1;
    }
  }

  /** A text has one clipping. */
  lemma ClippedOnce(s: string, limit: int, r: string)
    requires ClippedTo(s, limit, r)
    ensures r == Clipped(s, limit)
  {
    if |s| > limit {
      var n := Max(0, limit - 14);
      assert r == r[..n] + r[n..] && r[..n] == s[..n];
    }
  }

  lemma ErrorExcerptExactly(text: Text, original: seq<Field>, budget: int)
    ensures ErrorExcerpt(text, original, budget).Some? ==>
      var r := ErrorExcerpt(text, original, budget).value;
      OfError(text, original, r, budget) && Size(JObj(r)) <= budget
    ensures forall e :: OfError(text, original, e, budget) && Size(JObj(e)) <= budget ==>
      ErrorExcerpt(text, original, budget) == Some(e)
  {
    if ErrorExcerpt(text, original, budget).Some? { ExcerptIsOfError(text, original, budget); }
    forall e | OfError(text, original, e, budget) && Size(JObj(e)) <= budget
      ensures ErrorExcerpt(text, original, budget) == Some(e)
    {
      OfErrorIsExcerpt(text, original, e, budget);
    }
  }

  lemma ExcerptIsOfError(text: Text, original: seq<Field>, budget: int)
    requires ErrorExcerpt(text, original, budget).Some?
    ensures var r := ErrorExcerpt(text, original, budget).value;
      OfError(text, original, r, budget) && Size(JObj(r)) <= budget
  {
    var items := Get(original, "lines").items;
    var k := FirstErrorPlace(text, items);
    ClippedTells(items[k].s, Max(20, budget - 55));
    assert FirstErrorAt(text, original, k);
  }

  lemma OfErrorIsExcerpt(text: Text, original: seq<Field>, e: seq<Field>, budget: int)
    requires OfError(text, original, e, budget) && Size(JObj(e)) <= budget
    ensures ErrorExcerpt(text, original, budget) == Some(e)
  {
    var k: nat, c: string :| FirstErrorAt(text, original, k) && Get(original, "lines").items[k].s != ""
      && ClippedTo(Get(original, "lines").items[k].s, Max(20, budget - 55), c)
      && e == [Field("lines", JArr([JStr(c)])), Field("_context_abbreviated", JBool(true))];
    var items := Get(original, "lines").items;
    FirstErrorExactly(text, items, k);
    ClippedOnce(items[k].s, Max(20, budget - 55), c);
  }

  /** An abbreviated result tells the truth about the result, and as much of it as fits. */
  lemma CompactResultTells(text: Text, original: seq<Field>, budget: int, summary: string)
    ensures Tells(text, original, CompactResult(text, original, budget, summary), budget, summary)
  {
    if Size(JObj(original)) > budget {
      var round := FittingRound(text, original, budget, 0);
      if round < 4 {
        CandidateIsOfRound(text, original, round);
        assert FirstFit(text, original, Candidate(text, original, round), budget, round);
      } else {
        ErrorExcerptExactly(text, original, budget);
        ClippedTells(summary, Max(0, budget - 40));
      }
    }
  }
}
