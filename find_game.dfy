/** Recognition of a game from its HUD mask: a linear scan over the
    catalogued games that keeps the one at the smallest signed distance
    from the query mask, the first one found winning ties. Since the
    distance is signed, a mask darker than the query beats an identical
    one. */
module GameMatch {
  import opened GrayImages
  import opened HudMask

  datatype Option<+T> = None | Some(value: T)

  /** A catalogued game: its name, the HUD mask stored for it, and the
      optional editor, description and release year. */
  datatype Game = Game(
    name: string,
    analysis: GrayImage,
    editor: Option<string>,
    description: Option<string>,
    year: Option<int>)

  /** What the scan settles on: no catalogued game at all, the game at the
      smallest signed distance with that distance, or the first name the catalogue could not resolve,
      which aborts the scan. */
  datatype Outcome =
    | NoGames
    | Best(game: Game, distance: real)
    | LookupFailed(name: string)

  /** The largest finite single-precision float, the scan's initial best
      distance. */
  const FloatMax: real := 340282346638528859811704183484516925440.0

  /** The catalogue stores a valid mask for every game. */
  predicate ValidCatalogue(db: map<string, Game>) {
    forall n :: n in db ==> Valid(db[n].analysis)
  }

  predicate AllCatalogued(names: seq<string>, db: map<string, Game>) {
    forall i :: 0 <= i < |names| ==> names[i] in db
  }

  /** names[i] is the first name of the list that the catalogue lacks. */
  predicate FirstMissingAt(names: seq<string>, db: map<string, Game>, i: int) {
    0 <= i < |names| && names[i] !in db && forall j :: 0 <= j < i ==> names[j] in db
  }

  /** The distance from the query to each listed game, in list order. */
  function Distances(query: GrayImage, names: seq<string>, db: map<string, Game>): seq<real>
    requires Valid(query) && ValidCatalogue(db) && AllCatalogued(names, db)
  {
    seq(|names|, i requires 0 <= i < |names| => Distance(query, db[names[i]].analysis))
  }

  /** Position k holds a smallest value, and every earlier position holds a
      strictly larger one: k is the first minimum. */
  predicate IsFirstMinimum(ds: seq<real>, k: int) {
    0 <= k < |ds| &&
    (forall j :: 0 <= j < |ds| ==> ds[k] <= ds[j]) &&
    (forall j :: 0 <= j < k ==> ds[k] < ds[j])
  }

  /** The first minimum of a sequence is unique, so the scan's answer is
      determined by the distances alone. */
  lemma FirstMinimumUnique(ds: seq<real>, k1: int, k2: int)
    requires IsFirstMinimum(ds, k1) && IsFirstMinimum(ds, k2)
    ensures k1 == k2
  {
    assert ds[k1] == ds[k2];
  }

  /** A later position holding the same value as an earlier one is never
      the first minimum: ties go to the earlier game. */
  lemma TieKeepsEarlier(ds: seq<real>, i: int, j: int)
    requires 0 <= i < j < |ds| && ds[i] == ds[j]
    ensures !IsFirstMinimum(ds, j)
  {
  }

  /** Scans the listed games in order, fetches each from the catalogue,
      measures its distance from the query (always the first argument) and
      keeps a game only when its distance is strictly smaller than the best so far. An
      empty list returns at once; a name the catalogue lacks aborts the scan. */
  method FindGame(query: GrayImage, games: seq<string>, db: map<string, Game>) returns (r: Outcome)
    requires Valid(query) && ValidCatalogue(db)
    ensures r == NoGames <==> games == []
    ensures r.LookupFailed? <==> !AllCatalogued(games, db)
    ensures r.LookupFailed? ==> exists i :: FirstMissingAt(games, db, i) && games[i] == r.name
    ensures r.Best? ==>
      AllCatalogued(games, db) &&
      exists k :: IsFirstMinimum(Distances(query, games, db), k) &&
        r.game == db[games[k]] && r.distance == Distance(query, r.game.analysis)
  {
    var minDist := FloatMax;
    if |games| == 0 {
      return NoGames;
    }
    var bestGame: Option<Game> := None;
    ghost var k := 0;
    for i := 0 to |games|
      invariant forall j :: 0 <= j < i ==> games[j] in db
      invariant i == 0 ==> bestGame == None && minDist == FloatMax
      invariant 0 < i ==> k < i && bestGame == Some(db[games[k]])
      invariant 0 < i ==> minDist == Distance(query, db[games[k]].analysis)
      invariant 0 < i ==> forall j :: 0 <= j < i ==> minDist <= Distance(query, db[games[j]].analysis)
      invariant 0 < i ==> forall j :: 0 <= j < k ==> minDist < Distance(query, db[games[j]].analysis)
    {
      if games[i] !in db {
        assert FirstMissingAt(games, db, i);
        return LookupFailed(games[i]);
      }
      var fetchGame := db[games[i]];
      var currentDist := HudMaskDistanceCalculation(query, fetchGame.analysis);
      if minDist > currentDist {
        minDist := currentDist;
        bestGame := Some(fetchGame);
        k := i;
      }
    }
    assert IsFirstMinimum(Distances(query, games, db), k);
    return Best(bestGame.value, minDist);
  }

  /** Every catalogued game's distance is below the initial best distance,
      so a non-empty list always yields a game, however far it is. */
  lemma EveryCandidateBeatsFloatMax(query: GrayImage, game: Game)
    requires Valid(query) && Valid(game.analysis)
    ensures Distance(query, game.analysis) < FloatMax
  {
  }

  /** A query of 2x2 10s against a catalogue holding "A" (the same mask) and
      "B" (2x2 50s): "A" is recognised, at distance 0. */
  method IdenticalMaskScenario() returns (r: Outcome)
    ensures r.Best? && r.game.name == "A" && r.distance == 0.0
  {
    var query := Uniform(2, 2, 10);
    var a := Game("A", Uniform(2, 2, 10), None, None, None);
    var b := Game("B", Uniform(2, 2, 50), None, None, None);
    var db := map["A" := a, "B" := b];
    r := FindGame(query, ["A", "B"], db);
    IdenticalImagesAtDistanceZero(query);
    TensAgainstFifties();
    ghost var ds := Distances(query, ["A", "B"], db);
    assert ds == [0.0, 40.0];
    forall k | IsFirstMinimum(ds, k) ensures k == 0 {
      assert ds[k] <= ds[0];
    }
  }

  /** A catalogue holding only "B" still yields "B", at distance 40: the scan
      never reports no match because the best game is far. */
  method SingleFarCandidateScenario() returns (r: Outcome)
    ensures r.Best? && r.game.name == "B" && r.distance == 40.0
  {
    var query := Uniform(2, 2, 10);
    var b := Game("B", Uniform(2, 2, 50), None, None, None);
    r := FindGame(query, ["B"], map["B" := b]);
    TensAgainstFifties();
  }

  /** A query of 2x2 10s against a catalogue holding "A" (the same mask) and
      "C" (2x2 0s): the signed distance makes the darker "C" win, at -10,
      over the identical "A" at 0. */
  method DarkerCandidateBeatsIdenticalMask() returns (r: Outcome)
    ensures r.Best? && r.game.name == "C" && r.distance == -10.0
  {
    var query := Uniform(2, 2, 10);
    var a := Game("A", Uniform(2, 2, 10), None, None, None);
    var c := Game("C", Uniform(2, 2, 0), None, None, None);
    var db := map["A" := a, "C" := c];
    r := FindGame(query, ["A", "C"], db);
    IdenticalImagesAtDistanceZero(query);
    UniformDistance(2, 2, 10, 0);
    ghost var ds := Distances(query, ["A", "C"], db);
    assert ds == [0.0, -10.0];
    forall k | IsFirstMinimum(ds, k) ensures k == 1 {
      assert ds[k] <= ds[1];
    }
  }
}
