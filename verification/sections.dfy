/** The dashboard's loading state: the fetched payload and one flag per section, so that
    each section's charts are built the first time the section is shown and never again
    once a build has completed. */
module Sections {
  import opened Wrappers
  import opened Records

  /** The body of the data route: an error message, the records, or both absent. */
  datatype Payload = Payload(error: Option<string>, data: Option<seq<Record>>)

  /** JavaScript truthiness of the payload's `error` field. */
  predicate HasError(p: Payload) {
    p.error.Some? && |p.error.value| > 0
  }

  /** The loading state: the payload (`null` until one has been parsed), the section flags
      and the message in the error banner, if any. */
  datatype Session = Session(globalData: Option<Payload>, loaded: map<string, bool>, banner: Option<string>)

  /** The message shown when the data route cannot be read. */
  const TransportError := "Error loading data. Please ensure the backend server is running."

  /** The state at page load: no payload, the five initial flags all false, no banner. The
      comparison section has no initial flag. */
  const Initial := Session(None, map["overview" := false, "workloads" := false, "scalability" := false,
                                      "latency" := false, "design" := false], None)

  /** A flag as JavaScript reads it for an ordinary section name: a section without an
      entry is not loaded. A name inherited from `Object.prototype` (`toString`, say) reads
      as loaded in JavaScript; such names are outside the model. */
  predicate Loaded(s: Session, name: string) {
    name in s.loaded && s.loaded[name]
  }

  /** The sections whose builder draws charts and can therefore throw. */
  const ChartSections: set<string> := {"comparison", "workloads", "scalability", "latency"}

  /** Whether the builder for `name` completes on payload `p`: the static design section and
      names without a builder always do. The scalability builder reads the records before it
      looks up any element, so it throws when the payload has none. A chart builder otherwise
      completes when `renders`: its elements and the plotting library cooperate. */
  predicate Completes(p: Payload, name: string, renders: bool) {
    name !in ChartSections || (renders && (name == "scalability" ==> p.data.Some?))
  }

  /** The result of showing a section: the new state and whether a builder ran to completion. */
  datatype Step = Step(session: Session, built: bool)

  /** Showing section `name`. */
  function LoadSectionData(s: Session, name: string, renders: bool): (st: Step)
    ensures Loaded(s, name) || s.globalData.None? ==> st == Step(s, false)
    ensures st.built <==> !Loaded(s, name) && s.globalData.Some? && Completes(s.globalData.value, name, renders)
    ensures Loaded(st.session, name) <==> Loaded(s, name) || st.built
    ensures forall n :: n != name ==> Loaded(st.session, n) == Loaded(s, n)
    ensures st.session.globalData == s.globalData && st.session.banner == s.banner
  {
    if Loaded(s, name) || s.globalData.None? then Step(s, false)
    else if !Completes(s.globalData.value, name, renders) then Step(s, false)
    else Step(s.(loaded := s.loaded[name := true]), true)
  }

  /** What the data route answered: nothing readable, or a parsed body (`None` is JSON
      `null`, whose `error` field cannot be read). */
  datatype Fetch = Unreachable | Received(body: Option<Payload>)

  /** The start-up load: store the body, stop with a banner on an error, otherwise build the
      overview and flag it. */
  function LoadData(s: Session, f: Fetch): (r: Session)
    ensures f.Unreachable? ==> r.globalData == s.globalData
    ensures f.Received? ==> r.globalData == f.body
    ensures Loaded(r, "overview") <==>
      Loaded(s, "overview") || (f.Received? && f.body.Some? && !HasError(f.body.value))
    ensures forall n :: n != "overview" ==> Loaded(r, n) == Loaded(s, n)
    ensures f.Unreachable? || f.body.None? ==> r.banner == Some(TransportError)
    ensures f.Received? && f.body.Some? && HasError(f.body.value) ==> r.banner == f.body.value.error
    ensures f.Received? && f.body.Some? && !HasError(f.body.value) ==> r.banner == s.banner
  {
    match f
    case Unreachable => s.(banner := Some(TransportError))
    case Received(None) => s.(globalData := None, banner := Some(TransportError))
    case Received(Some(p)) =>
      if HasError(p) then s.(globalData := Some(p), banner := p.error)
      else s.(globalData := Some(p), loaded := s.loaded["overview" := true])
  }

  /** A visit to a section, with whether its builder would render. */
  datatype Visit = Visit(name: string, renders: bool)

  /** The state after a sequence of visits and the sections whose builder completed, in
      order. */
  function Visits(s: Session, vs: seq<Visit>): (Session, seq<string>)
    decreases |vs|
  {
    if |vs| == 0 then (s, [])
    else
      var st := LoadSectionData(s, vs[0].name, vs[0].renders);
      var (t, done) := Visits(st.session, vs[1..]);
      (t, if st.built then [vs[0].name] + done else done)
  }

  /** One-shot flags: over any sequence of visits, a section's builder completes at most
      once, never for a section that was already loaded, and a completed section ends up
      loaded. */
  lemma {:induction false} BuiltAtMostOnce(s: Session, vs: seq<Visit>)
    ensures forall n :: multiset(Visits(s, vs).1)[n] <= 1
    ensures forall n :: Loaded(s, n) ==> multiset(Visits(s, vs).1)[n] == 0
    ensures forall n :: Loaded(s, n) || n in Visits(s, vs).1 ==> Loaded(Visits(s, vs).0, n)
    decreases |vs|
  {
    if |vs| > 0 {
      var st := LoadSectionData(s, vs[0].name, vs[0].renders);
      BuiltAtMostOnce(st.session, vs[1..]);
      var done := Visits(st.session, vs[1..]).1;
      if st.built {
        assert Visits(s, vs).1 == [vs[0].name] + done;
        assert multiset(Visits(s, vs).1) == multiset{vs[0].name} + multiset(done);
      }
    }
  }

  /** No section is loaded at page load. */
  lemma InitialNothingLoaded(name: string)
    ensures !Loaded(Initial, name)
  {
  }

  /** Without a payload no section is built, whatever is visited. */
  lemma {:induction false} NoPayloadNoBuild(s: Session, vs: seq<Visit>)
    requires s.globalData.None?
    ensures Visits(s, vs).1 == []
    ensures Visits(s, vs).0 == s
    decreases |vs|
  {
    if |vs| > 0 {
      NoPayloadNoBuild(s, vs[1..]);
    }
  }

  /** A payload without records never gets the scalability section loaded, whatever is
      visited. */
  lemma {:induction false} NoDataNoScalability(s: Session, vs: seq<Visit>)
    requires s.globalData.Some? && s.globalData.value.data.None?
    requires !Loaded(s, "scalability")
    ensures "scalability" !in Visits(s, vs).1
    ensures !Loaded(Visits(s, vs).0, "scalability")
    decreases |vs|
  {
    if |vs| > 0 {
      var st := LoadSectionData(s, vs[0].name, vs[0].renders);
      NoDataNoScalability(st.session, vs[1..]);
    }
  }

  /** After the data route answers with an error and no records, the scalability section is
      never loaded. */
  lemma ErrorPayloadNoScalability(message: string, vs: seq<Visit>)
    ensures !Loaded(Visits(LoadData(Initial, Received(Some(Payload(Some(message), None)))), vs).0, "scalability")
  {
    NoDataNoScalability(LoadData(Initial, Received(Some(Payload(Some(message), None)))), vs);
  }
}
