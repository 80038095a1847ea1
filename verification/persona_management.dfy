/**
 * The persona roster: a list of personas plus the raw text each extracted
 * persona came from, the header-driven parser used when the language model
 * is unavailable, and the list operations of the store.
 */
module PersonaManagement {
  import opened Wrappers
  import opened Text
  import opened Dicts
  import opened Records
  import opened Config
  import opened Fences

  // ---------------------------------------------------------------------
  // The fallback header parser
  // ---------------------------------------------------------------------

  const HeaderIndicators: seq<string> := ["persona:", "buyer persona", "target audience", "ideal customer"]

  /** Some indicator occurs in `low`: `any(indicator in low for indicator in indicators)`. */
  predicate MentionsAny(low: string, indicators: seq<string>)
    decreases |indicators|
  {
    indicators != [] && (Contains(low, indicators[0]) || MentionsAny(low, indicators[1..]))
  }

  /** A stripped line opens a new persona when its lower-case form holds one of the four indicators. */
  predicate IsHeader(line: string) {
    MentionsAny(Lower(line), HeaderIndicators)
  }

  /** The empty text mentions no non-empty indicator. */
  lemma {:induction false} EmptyMentionsNothing(indicators: seq<string>)
    requires forall k :: k in indicators ==> k != []
    ensures !MentionsAny("", indicators)
    decreases |indicators|
  {
    if indicators != [] {
      assert indicators[0] in indicators;
      assert Find("", indicators[0]).None?;
      assert forall k :: k in indicators[1..] ==> k in indicators;
      EmptyMentionsNothing(indicators[1..]);
    }
  }

  /** A blank line never opens a persona, so skipping blank lines changes nothing. */
  lemma BlankIsNotHeader()
    ensures !IsHeader("")
  {
    assert Lower("") == "";
    EmptyMentionsNothing(HeaderIndicators);
  }

  /** The persona name on a header line: the stripped text after its last colon, or the whole line. */
  function HeaderName(line: string): string {
    if Contains(line, ":") then Strip(LastPiece(line, ":")) else line
  }

  /** The name holds no colon, and when the line has one it is the stripped text that follows the last. */
  lemma HeaderNameAfterLastColon(line: string)
    ensures Contains(line, ":") ==>
      exists t :: EndsWith(line, ":" + t) && !Contains(t, ":") && HeaderName(line) == Strip(t)
  {
    if Contains(line, ":") {
      var t := LastPiece(line, ":");
      LastPieceSuffix(line, ":");
      LastPieceFree(line, ":");
      assert EndsWith(line, ":" + t) && !Contains(t, ":") && HeaderName(line) == Strip(t);
    }
  }

  /** What a stripped line is to the parser. */
  datatype LineKind = Blank | Header(name: string) | Body

  function Classify(line: string): (k: LineKind)
    ensures k.Header? <==> IsHeader(line)
    ensures k.Header? ==> k.name == HeaderName(line)
  {
    if line == [] then BlankIsNotHeader(); Blank
    else if IsHeader(line) then Header(HeaderName(line))
    else Body
  }

  /** The kind of each line of a text, after stripping. */
  function Kinds(lines: seq<string>): (ks: seq<LineKind>)
    ensures |ks| == |lines|
  {
    if lines == [] then []
    else Kinds(lines[..|lines| - 1]) + [Classify(Strip(lines[|lines| - 1]))]
  }

  lemma KindsStep(lines: seq<string>, i: nat)
    requires i < |lines|
    ensures Kinds(lines[..i + 1]) == Kinds(lines[..i]) + [Classify(Strip(lines[i]))]
  {
    assert lines[..i + 1][..i] == lines[..i];
  }

  /** The kind at position `i` is that of line `i`. */
  lemma {:induction false} KindsAt(lines: seq<string>, i: nat)
    requires i < |lines|
    ensures Kinds(lines)[i] == Classify(Strip(lines[i]))
  {
    var n := |lines| - 1;
    if i < n {
      KindsAt(lines[..n], i);
    }
  }

  /** The persona a header opens: its name, no role, every other field empty. */
  function NamedPersona(name: string): Persona {
    Persona(Some(name), None, "", [], [], [], [], [], [])
  }

  const GenericName: string := "Extracted Persona"
  const GenericRole: string := "Unknown"
  const DescriptionLimit: nat := 500

  /** The single persona built when no header is found: the text's first 500 characters as description. */
  function GenericPersona(text: string): Persona {
    var n := if |text| < DescriptionLimit then |text| else DescriptionLimit;
    Persona(Some(GenericName), Some(GenericRole), text[..n], [], [], [], [], [], [])
  }

  /** The personas the headers among `ks` open, in order. */
  function Opened(ks: seq<LineKind>): (ps: seq<Persona>)
    ensures |ps| <= |ks|
  {
    if ks == [] then []
    else
      var k := ks[|ks| - 1];
      Opened(ks[..|ks| - 1]) + (if k.Header? then [NamedPersona(k.name)] else [])
  }

  lemma OpenedSnoc(ks: seq<LineKind>, k: LineKind)
    ensures Opened(ks + [k]) == Opened(ks) + (if k.Header? then [NamedPersona(k.name)] else [])
  {
    assert (ks + [k])[..|ks|] == ks;
  }

  /** The positions of the header lines. */
  function HeaderIndices(ks: seq<LineKind>): set<nat> {
    set i: nat | i < |ks| && ks[i].Header?
  }

  /** One persona per header line. */
  lemma {:induction false} OpenedCount(ks: seq<LineKind>)
    ensures |Opened(ks)| == |HeaderIndices(ks)|
  {
    if ks != [] {
      var n := |ks| - 1;
      var init := ks[..n];
      OpenedCount(init);
      assert n !in HeaderIndices(init);
      if ks[n].Header? {
        assert HeaderIndices(ks) == HeaderIndices(init) + {n};
      } else {
        assert HeaderIndices(ks) == HeaderIndices(init);
      }
    }
  }

  /** Each persona opened is the one some header opens, and each header opens one. */
  lemma {:induction false} OpenedFrom(ks: seq<LineKind>)
    ensures forall p :: p in Opened(ks) <==> exists i :: 0 <= i < |ks| && ks[i].Header? && p == NamedPersona(ks[i].name)
  {
    if ks != [] {
      var n := |ks| - 1;
      var init := ks[..n];
      OpenedFrom(init);
      forall p | p in Opened(ks)
        ensures exists i :: 0 <= i < |ks| && ks[i].Header? && p == NamedPersona(ks[i].name)
      {
        if p !in Opened(init) {
          assert ks[n].Header? && p == NamedPersona(ks[n].name);
        } else {
          var i :| 0 <= i < |init| && init[i].Header? && p == NamedPersona(init[i].name);
          assert ks[i] == init[i];
        }
      }
      forall i | 0 <= i < |ks| && ks[i].Header?
        ensures NamedPersona(ks[i].name) in Opened(ks)
      {
        if i < n {
          assert init[i] == ks[i];
        }
      }
    }
  }

  /** The persona still being read, if any: it is appended when the next header or the end comes. */
  function Pending(current: Option<Persona>): seq<Persona> {
    if current.Some? then [current.value] else []
  }

  /** `_fallback_persona_extraction(text)`. */
  function FallbackPersonas(text: string): seq<Persona> {
    var found := Opened(Kinds(SplitOn(text, "\n")));
    if found == [] then [GenericPersona(text)] else found
  }

  /** There is one persona per header line, or exactly one when there are none. */
  lemma FallbackCount(text: string)
    ensures var headers := HeaderIndices(Kinds(SplitOn(text, "\n")));
      |FallbackPersonas(text)| == if headers == {} then 1 else |headers|
  {
    OpenedCount(Kinds(SplitOn(text, "\n")));
  }

  /** Without a header line the result is the generic persona, described by the text's first 500 characters. */
  lemma FallbackGeneric(text: string)
    requires HeaderIndices(Kinds(SplitOn(text, "\n"))) == {}
    ensures var r := FallbackPersonas(text);
      |r| == 1 && r[0].name == Some(GenericName) && r[0].role == Some(GenericRole)
      && r[0].description <= text
      && |r[0].description| == (if |text| < DescriptionLimit then |text| else DescriptionLimit)
  {
    OpenedCount(Kinds(SplitOn(text, "\n")));
  }

  /**
   * With header lines, each persona is the one some header line opens (named
   * from it, no role, every other field empty), and each header line opens one.
   */
  lemma FallbackFromHeaders(text: string)
    requires HeaderIndices(Kinds(SplitOn(text, "\n"))) != {}
    ensures var ks := Kinds(SplitOn(text, "\n"));
      forall p :: p in FallbackPersonas(text) <==> exists i :: 0 <= i < |ks| && ks[i].Header? && p == NamedPersona(ks[i].name)
    ensures forall p :: p in FallbackPersonas(text) ==>
      p.name.Some? && p.role.None? && p.description == [] && p.painPoints == [] && p.goals == []
      && p.motivations == [] && p.objections == [] && p.preferredContent == [] && p.buyingTriggers == []
  {
    var ks := Kinds(SplitOn(text, "\n"));
    OpenedCount(ks);
    OpenedFrom(ks);
  }

  // ---------------------------------------------------------------------
  // Lookup by name
  // ---------------------------------------------------------------------

  /** `persona.get("name", "").lower() == name.lower()`. */
  predicate NameMatches(p: Persona, name: string) {
    Lower(p.name.GetOr("")) == Lower(name)
  }

  /** The position of the first persona whose name matches. */
  function FirstMatch(ps: seq<Persona>, name: string): (r: Option<nat>)
    ensures r.Some? ==> r.value < |ps| && NameMatches(ps[r.value], name)
    ensures r.Some? ==> forall j :: 0 <= j < r.value ==> !NameMatches(ps[j], name)
    ensures r.None? <==> forall j :: 0 <= j < |ps| ==> !NameMatches(ps[j], name)
  {
    if ps == [] then None
    else if NameMatches(ps[0], name) then Some(0)
    else
      match FirstMatch(ps[1..], name)
      case None => None
      case Some(j) => Some(j + 1)
  }

  /** The query's case does not matter. */
  lemma LookupIgnoresCase(ps: seq<Persona>, name: string)
    ensures FirstMatch(ps, Lower(name)) == FirstMatch(ps, name)
  {
    LowerIdempotent(name);
  }

  // ---------------------------------------------------------------------
  // Recording the source text of extracted personas
  // ---------------------------------------------------------------------

  /** The model's reply decodes: there is a client, it answered, and the cleaned answer is in the table. */
  predicate Decodes(hasClient: bool, reply: Reply, decoder: map<string, seq<Persona>>) {
    hasClient && reply.Answer? && Prepared(reply.text) in decoder
  }

  /** `extract_personas_from_text`: the decoded personas, or the fallback parse of the text. */
  function Extracted(hasClient: bool, text: string, reply: Reply, decoder: map<string, seq<Persona>>): seq<Persona> {
    if Decodes(hasClient, reply, decoder) then decoder[Prepared(reply.text)] else FallbackPersonas(text)
  }

  /** After extraction every decoded persona's name is mapped to the document; other entries stay. */
  lemma ExtractedTexts(texts: Dict<string, string>, found: seq<Persona>, text: string, k: string)
    ensures Get(PutAll(texts, Names(found), text), k) ==
      if exists i :: 0 <= i < |found| && PersonaName(found[i]) == k then Some(text) else Get(texts, k)
  {
    PutAllGet(texts, Names(found), text, k);
    if k in Names(found) {
      var i :| 0 <= i < |found| && Names(found)[i] == k;
      assert PersonaName(found[i]) == k;
    }
  }

  /** The saved form of the store: the `personas` and `persona_texts` keys, either of which may be missing. */
  datatype Snapshot = Snapshot(personas: Option<seq<Persona>>, personaTexts: Option<Dict<string, string>>)

  /** What `from_dict` takes from a saved form. */
  function Restored(d: Snapshot): (seq<Persona>, Dict<string, string>) {
    (d.personas.GetOr([]), d.personaTexts.GetOr([]))
  }

  class PersonaManager {
    var hasClient: bool
    var personas: seq<Persona>
    var personaTexts: Dict<string, string>

    /** A store with no personas and no texts; whether a model client exists is given. */
    constructor(hasClient: bool)
      ensures this.hasClient == hasClient && personas == [] && personaTexts == []
    {
      this.hasClient := hasClient;
      personas := [];
      personaTexts := [];
    }

    /** The roster becomes the three default personas. */
    method LoadDefaultPersonas()
      modifies this`personas
      ensures personas == DefaultPersonas
      ensures Names(personas) == ["CMO / VP Marketing", "Content Manager", "Sales Leader"]
    {
      personas := DefaultPersonas;
    }

    /**
     * The line loop of the header parser: the personas closed so far and the
     * one still open, which together are those the header lines open.
     */
    static method ScanLines(lines: seq<string>) returns (personas: seq<Persona>, current: Option<Persona>)
      ensures current.None? ==> personas == []
      ensures personas + Pending(current) == Opened(Kinds(lines))
    {
      personas := [];
      current := None;
      var i := 0;
      while i < |lines|
        invariant 0 <= i <= |lines|
        invariant current.None? ==> personas == []
        invariant personas + Pending(current) == Opened(Kinds(lines[..i]))
      {
        ghost var before := personas + Pending(current);
        ghost var done := Kinds(lines[..i]);
        var kind := Classify(Strip(lines[i]));
        KindsStep(lines, i);
        OpenedSnoc(done, kind);
        match kind {
          case Header(name) =>
            if current.Some? {
              personas := personas + [current.value];
            }
            current := Some(NamedPersona(name));
            assert personas + Pending(current) == before + [NamedPersona(name)];
          case _ =>
            assert Opened(done + [kind]) == before;
        }
        assert personas + Pending(current) == Opened(done + [kind]);
        i := i + 1;
        assert Kinds(lines[..i]) == done + [kind];
      }
      assert lines[..i] == lines;
    }

    /** The header parser over the lines of `text`, with the generic persona when it finds none. */
    static method FallbackPersonaExtraction(text: string) returns (personas: seq<Persona>)
      ensures personas == FallbackPersonas(text)
    {
      var current;
      personas, current := ScanLines(SplitOn(text, "\n"));
      if current.Some? {
        personas := personas + [current.value];
      }
      if personas == [] {
        personas := [GenericPersona(text)];
      }
    }

    /** `persona_texts[name] = text` for each extracted persona, in order. */
    static method RecordSourceText(texts: Dict<string, string>, found: seq<Persona>, text: string)
      returns (out: Dict<string, string>)
      ensures out == PutAll(texts, Names(found), text)
    {
      var names := Names(found);
      out := texts;
      var i := 0;
      while i < |found|
        invariant 0 <= i <= |found|
        invariant out == PutAll(texts, names[..i], text)
      {
        PutAllStep(texts, names, text, i);
        out := Put(out, names[i], text);
        i := i + 1;
      }
      assert names[..i] == names;
    }

    /**
     * The model's personas when its reply decodes, recording the document
     * under each of their names; the header parser otherwise, with the
     * texts left alone.
     */
    method ExtractPersonasFromText(text: string, reply: Reply, decoder: map<string, seq<Persona>>)
      returns (found: seq<Persona>)
      modifies this`personaTexts
      ensures found == Extracted(hasClient, text, reply, decoder)
      ensures personaTexts ==
        if Decodes(hasClient, reply, decoder) then PutAll(old(personaTexts), Names(found), text) else old(personaTexts)
    {
      if !hasClient {
        found := FallbackPersonaExtraction(text);
        return;
      }
      match reply
      case Raised =>
        found := FallbackPersonaExtraction(text);
      case Answer(t) =>
        var key := Prepared(t);
        if key in decoder {
          found := decoder[key];
          personaTexts := RecordSourceText(personaTexts, found, text);
        } else {
          found := FallbackPersonaExtraction(text);
        }
    }

    /** One persona is appended; the earlier ones are unchanged. */
    method AddPersona(p: Persona)
      modifies this`personas
      ensures |personas| == |old(personas)| + 1
      ensures personas[..|old(personas)|] == old(personas) && personas[|personas| - 1] == p
    {
      personas := personas + [p];
    }

    /** The given personas are appended in order; the earlier ones are unchanged. */
    method AddPersonas(ps: seq<Persona>)
      modifies this`personas
      ensures |personas| == |old(personas)| + |ps|
      ensures personas[..|old(personas)|] == old(personas) && personas[|old(personas)|..] == ps
    {
      personas := personas + ps;
    }

    /** The first persona whose name equals `name` ignoring case (a missing name counts as ""), if any. */
    function GetPersonaByName(name: string): (r: Option<Persona>)
      reads this
      ensures r.None? <==> forall j :: 0 <= j < |personas| ==> !NameMatches(personas[j], name)
      ensures r.Some? ==> exists i :: 0 <= i < |personas| && r.value == personas[i] && NameMatches(personas[i], name)
                                   && (forall j :: 0 <= j < i ==> !NameMatches(personas[j], name))
    {
      match FirstMatch(personas, name)
      case None => None
      case Some(i) => Some(personas[i])
    }

    /** The names in roster order, "Unknown" for a persona without one. */
    function GetPersonaNames(): (ns: seq<string>)
      reads this
      ensures |ns| == |personas|
      ensures forall i :: 0 <= i < |personas| ==> ns[i] == personas[i].name.GetOr("Unknown")
    {
      Names(personas)
    }

    /** Both the roster and the recorded texts become empty. */
    method ClearPersonas()
      modifies this`personas, this`personaTexts
      ensures personas == [] && personaTexts == []
    {
      personas := [];
      personaTexts := [];
    }

    /** The saved form holds both parts of the store. */
    function ToDict(): (d: Snapshot)
      reads this
      ensures Restored(d) == (personas, personaTexts)
    {
      Snapshot(Some(personas), Some(personaTexts))
    }

    /** The store takes both parts from a saved form; a missing part becomes empty. */
    method FromDict(data: Snapshot)
      modifies this`personas, this`personaTexts
      ensures (personas, personaTexts) == Restored(data)
      ensures data.personas.None? ==> personas == []
      ensures data.personaTexts.None? ==> personaTexts == []
    {
      personas := data.personas.GetOr([]);
      personaTexts := data.personaTexts.GetOr([]);
    }
  }
}
