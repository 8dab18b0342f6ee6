/** Printing a client route into the location hash and reading it back. */
module ClientRoutes {
  import opened Options
  import Decimal
  import P = PercentCoding
  import opened Splitting

  datatype Route =
    | Empty
    | AppSettings
    | Materials(characterId: string, sourceId: Option<string>, frameIndex: Option<int>)
    | Settings(characterId: string)
    | Export(characterId: string)
    | Action(characterId: string, actionId: string)

  // ---------------------------------------------------------------- splitting

  /** .filter(Boolean) */
  function NonEmpty(parts: seq<string>): seq<string> {
    if parts == [] then [] else (if parts[0] == "" then [] else [parts[0]]) + NonEmpty(parts[1..])
  }

  function Parts(s: string): seq<string> { NonEmpty(Split(s)) }

  /** A separator ends a part; an empty part disappears. */
  lemma PartsStep(a: string, rest: string)
    requires '/' !in a
    ensures Parts(a + "/" + rest) == (if a == "" then [] else [a]) + Parts(rest)
  {
    SplitStep(a, rest);
    assert ([a] + Split(rest))[1..] == Split(rest);
  }

  lemma PartsWhole(a: string)
    requires '/' !in a
    ensures Parts(a) == if a == "" then [] else [a]
  {
    SplitWhole(a);
    var none: seq<string> := [];
    assert [a][1..] == none && NonEmpty(none) == none;
  }

  // ---------------------------------------------------------------- reading and printing

  /** hash.replace(/^#\/?/, "") */
  function StripHash(hash: string): string {
    if hash == "" || hash[0] != '#' then hash
    else if |hash| > 1 && hash[1] == '/' then hash[2..]
    else hash[1..]
  }

  /** A part that does not decode reads as the empty identifier. */
  function DecodePart(part: string): string {
    match P.Decode(part)
    case None => ""
    case Some(s) => s
  }

  function Parse(hash: string): Route {
    var parts := Parts(StripHash(hash));
    if parts == ["settings"] then AppSettings
    else if |parts| < 2 || parts[0] != "characters" then Empty
    else
      var characterId := DecodePart(parts[1]);
      if |parts| < 3 then Empty
      else if parts[2] == "materials" then
        Materials(characterId,
                  if |parts| > 3 then Some(DecodePart(parts[3])) else None,
                  if |parts| > 4 then ReadIndex(parts[4]) else None)
      else if parts[2] == "settings" then Settings(characterId)
      else if parts[2] == "export" then Export(characterId)
      else if parts[2] == "actions" && |parts| > 3 then Action(characterId, DecodePart(parts[3]))
      else Empty
  }

  /** What a hash with few parts reads as: no source without a fourth part, no frame without a fifth. */
  lemma ShortHashes(hash: string)
    ensures var parts := Parts(StripHash(hash));
            && (|parts| < 3 && parts != ["settings"] ==> Parse(hash) == Empty)
            && (|parts| >= 1 && parts[0] != "characters" && parts != ["settings"] ==> Parse(hash) == Empty)
            && (|parts| == 3 && parts[0] == "characters" && parts[2] == "materials" ==>
                  Parse(hash) == Materials(DecodePart(parts[1]), None, None))
            && (|parts| == 4 && parts[0] == "characters" && parts[2] == "materials" ==>
                  Parse(hash) == Materials(DecodePart(parts[1]), Some(DecodePart(parts[3])), None))
            && (|parts| == 3 && parts[2] == "actions" ==> Parse(hash) == Empty)
  {
    hide DecodePart, ReadIndex, Parts, StripHash;
  }

  /** Decimal notation of a natural number; anything else gives no index. */
  function ReadIndex(part: string): Option<int> {
    match Decimal.Parse(part)
    case None => None
    case Some(n) => Some(n)
  }

  function PrintIndex(n: int): string {
    if n < 0 then "-" + Decimal.Print(-n) else Decimal.Print(n)
  }

  predicate HasCharacter(r: Route) { !r.Empty? && !r.AppSettings? }

  predicate HasSource(r: Route) { r.Materials? && r.sourceId.Some? && r.sourceId.value != "" }

  function PageName(r: Route): string {
    match r
    case Materials(_, _, _) => "materials"
    case Settings(_) => "settings"
    case Export(_) => "export"
    case _ => "actions"
  }

  function PrintedIndex(r: Route): string
    requires r.Materials?
  {
    PrintIndex(if r.frameIndex.Some? then r.frameIndex.value else 0)
  }

  function PrintTail(r: Route): string
    requires HasCharacter(r)
  {
    if r.Action? then "actions/" + P.Encode(r.actionId)
    else if HasSource(r) then "materials/" + P.Encode(r.sourceId.value) + "/" + PrintedIndex(r)
    else PageName(r)
  }

  /** routeHash */
  function Print(r: Route): string
    requires !r.Empty?
  {
    if r.AppSettings? then "#/settings" else "#/characters/" + P.Encode(r.characterId) + "/" + PrintTail(r)
  }

  /**
   What survives the trip: a source gets frame 0 when it has none and loses a negative one; without a source there is no
   frame.
   */
  function Normal(r: Route): Route {
    if HasSource(r) then
      Materials(r.characterId, r.sourceId,
                if r.frameIndex.None? then Some(0) else if r.frameIndex.value < 0 then None else r.frameIndex)
    else if r.Materials? then Materials(r.characterId, None, None)
    else r
  }

  predicate Identified(r: Route) {
    && (HasCharacter(r) ==> r.characterId != "")
    && (r.Action? ==> r.actionId != "")
  }

  // ---------------------------------------------------------------- the round trip

  lemma PartsNoSlash(s: string)
    requires Decimal.AllDigits(s)
    ensures '/' !in s
  {}

  lemma IndexPart(n: int)
    ensures '/' !in PrintIndex(n) && PrintIndex(n) != ""
    ensures ReadIndex(PrintIndex(n)) == if n < 0 then None else Some(n)
  {
    Decimal.ParsePrint(if n < 0 then -n else n);
    if n < 0 {
      assert !Decimal.IsDigit(PrintIndex(n)[0]);
      PartsNoSlash(Decimal.Print(-n));
    } else {
      PartsNoSlash(Decimal.Print(n));
    }
  }

  function TailParts(r: Route): seq<string>
    requires HasCharacter(r)
  {
    if r.Action? then ["actions"] + (if r.actionId == "" then [] else [P.Encode(r.actionId)])
    else if HasSource(r) then ["materials", P.Encode(r.sourceId.value), PrintedIndex(r)]
    else [PageName(r)]
  }

  lemma SourceTailSplits(source: string, index: string)
    requires '/' !in source && '/' !in index && source != "" && index != ""
    ensures Parts("materials/" + source + "/" + index) == ["materials", source, index]
  {
    hide Parts;
    assert "materials/" + source + "/" + index == "materials" + "/" + (source + "/" + index);
    PartsStep("materials", source + "/" + index);
    PartsStep(source, index);
    PartsWhole(index);
  }

  lemma ActionTailSplits(action: string)
    requires '/' !in action
    ensures Parts("actions/" + action) == ["actions"] + (if action == "" then [] else [action])
  {
    hide Parts;
    assert "actions/" + action == "actions" + "/" + action;
    PartsStep("actions", action);
    PartsWhole(action);
  }

  lemma TailSplits(r: Route)
    requires HasCharacter(r)
    ensures Parts(PrintTail(r)) == TailParts(r)
  {
    hide Parts, P.Encode, PrintIndex;
    if r.Action? {
      P.EncodePlain(r.actionId);
      ActionTailSplits(P.Encode(r.actionId));
    } else if HasSource(r) {
      P.EncodePlain(r.sourceId.value);
      IndexPart(if r.frameIndex.Some? then r.frameIndex.value else 0);
      SourceTailSplits(P.Encode(r.sourceId.value), PrintedIndex(r));
    } else {
      PartsWhole(PageName(r));
    }
  }

  lemma StripPrinted(character: string, tail: string)
    ensures StripHash("#/characters/" + character + "/" + tail) == "characters" + "/" + (character + "/" + tail)
  {
    assert "#/characters/" + character + "/" + tail == "#/" + ("characters" + "/" + (character + "/" + tail));
  }

  lemma PrintSplits(r: Route)
    requires HasCharacter(r)
    ensures Parts(StripHash(Print(r)))
         == ["characters"] + (if r.characterId == "" then [] else [P.Encode(r.characterId)]) + TailParts(r)
  {
    hide Parts, PrintTail, TailParts, StripHash, P.Encode;
    StripPrinted(P.Encode(r.characterId), PrintTail(r));
    P.EncodePlain(r.characterId);
    PartsStep("characters", P.Encode(r.characterId) + "/" + PrintTail(r));
    PartsStep(P.Encode(r.characterId), PrintTail(r));
    TailSplits(r);
  }

  lemma DecodedPart(s: string)
    ensures DecodePart(P.Encode(s)) == s
  {
    P.DecodeEncode(s);
  }

  /** With an empty character identifier the page name is read in its place. */
  lemma EmptyCharacterMisread(r: Route)
    requires HasCharacter(r) && r.characterId == ""
    ensures Parse(Print(r)) != Normal(r)
  {
    hide Parts, StripHash, Print, P.Encode, PrintIndex, ReadIndex, DecodePart;
    PrintSplits(r);
    var parts := Parts(StripHash(Print(r)));
    assert parts[1] == PageName(r);
    PageNameDecodes(r);
  }

  lemma PageNameDecodes(r: Route)
    ensures DecodePart(PageName(r)) != ""
  {
    var name := PageName(r);
    assert name != "" && '%' !in name;
    Undecoded(name);
  }

  lemma {:induction false} Undecoded(s: string)
    requires '%' !in s
    ensures P.Decode(s) == Some(s)
  {
    if s != "" {
      Undecoded(s[1..]);
      assert s == [s[0]] + s[1..];
    }
  }

  /** A printed route reads back as its normal form exactly when its identifiers are not empty. */
  lemma ParsePrint(r: Route)
    requires !r.Empty?
    ensures Parse(Print(r)) == Normal(r) <==> Identified(r)
  {
    hide P.Encode, P.Decode, Parts, StripHash, PrintIndex, ReadIndex, DecodePart;
    if r.AppSettings? {
      AppSettingsReads();
    } else if r.characterId == "" {
      EmptyCharacterMisread(r);
    } else {
      PrintSplits(r);
      DecodedPart(r.characterId);
      if r.Action? { DecodedPart(r.actionId); }
      if HasSource(r) {
        DecodedPart(r.sourceId.value);
        IndexPart(if r.frameIndex.Some? then r.frameIndex.value else 0);
      }
    }
  }

  lemma AppSettingsReads()
    ensures Parse(Print(AppSettings)) == AppSettings
  {
    assert StripHash("#/settings") == "settings";
    PartsWhole("settings");
  }

  /** Routes that differ after normalisation have different hashes. */
  lemma PrintInjective(r: Route, s: Route)
    requires !r.Empty? && !s.Empty? && Identified(r) && Identified(s) && Print(r) == Print(s)
    ensures Normal(r) == Normal(s)
  {
    ParsePrint(r);
    ParsePrint(s);
  }
}
