/**
 * The page's own behaviour, built from the parts: the update button's
 * handler, which reads the selected option's value, looks the location up
 * and draws it, and `main`'s start-up sequence. The service's answers are
 * inputs: one for the list, one for the auth URL, and a function from id to
 * the answer of a location lookup.
 */
module App {
  import opened Wrappers
  import opened Decimal
  import opened NameSelect
  import opened ServiceClient
  import opened MapView

  /**
   * How one press of the update button ends. `NoSelection` and
   * `LocationUnavailable` are the two ways the handler fails: reading the
   * value of an option that does not exist, and reading the fields of a
   * `null` location.
   */
  datatype UpdateOutcome = Updated(location: LocationRecord) | NoSelection | LocationUnavailable(id: int)

  /**
   * The option a freshly parsed single-choice selector selects, by the
   * browser's default since no option is marked `selected`: the first one,
   * or -1 when it has none.
   */
  function InitialSelectedIndex(pairs: seq<NamePair>): (i: int)
    ensures pairs == [] <==> i == -1
    ensures pairs != [] ==> i == 0
  {
    if pairs == [] then -1 else 0
  }

  /**
   * `onUpdateButton`, on a selector built from `pairs` with `selectedIndex`
   * selected: parse the selected option's value, look up that id, and draw
   * the answer. The id looked up is the selected pair's own id; nothing is
   * fetched without a selected option, and the drawing is left as it was
   * when the lookup fails.
   */
  method OnUpdateButton(session: MapSession, pairs: seq<NamePair>, selectedIndex: int,
                        locate: int -> Response<LocationRecord>)
    returns (outcome: UpdateOutcome, events: seq<Event>)
    requires session.Valid()
    modifies session.source
    ensures session.Valid()
    ensures !(0 <= selectedIndex < |pairs|) ==>
      outcome == NoSelection && events == [] && session.source.features == old(session.source.features)
    ensures 0 <= selectedIndex < |pairs| ==>
      var id := pairs[selectedIndex].id;
      && events == [Fetch(LocationRequest(id))]
      && (locate(id).ok ==>
            && outcome == Updated(locate(id).body)
            && session.source.features
               == LocationFeatures(locate(id).body.latitude, locate(id).body.longitude, locate(id).body.accuracy))
      && (!locate(id).ok ==>
            outcome == LocationUnavailable(id) && session.source.features == old(session.source.features))
  {
    if !(0 <= selectedIndex < |pairs|) {
      return NoSelection, [];
    }
    var option := OptionMarkup(pairs[selectedIndex]);
    OptionValueRoundTrip(pairs[selectedIndex]);
    var id := ParseInt(ValueAttribute(option).value).value;
    var call := GetLocation(id, locate(id));
    events := call.events;
    if call.result.None? {
      return LocationUnavailable(id), events;
    }
    var location := call.result.value;
    session.UpdateLocation(location.latitude, location.longitude, location.accuracy);
    outcome := Updated(location);
  }

  /**
   * `main`: list the names (authenticating when the list is `null`), build
   * the map, write the selector, fetch the initial location for the first
   * option and zoom to it. A `null` list stops the start-up once the map is
   * built, since writing the selector of `null` fails; an empty list stops
   * it at the initial update, which has no option to read.
   */
  method Start(list: Response<seq<NamePair>>, auth: Response<AuthBody>, locate: int -> Response<LocationRecord>)
    returns (session: MapSession, selectHtml: Option<string>, events: seq<Event>)
    ensures fresh(session.source) && fresh(session.view)
    ensures session.Valid()
    ensures NothingAfterRedirect(events)
    ensures !list.ok ==>
      && selectHtml == None
      && events == StartupAuth(list, auth).events
      && session.source.features == [] && session.view.fits == []
    ensures list.ok && list.body == [] ==>
      && selectHtml == Some(SelectMarkup([]))
      && events == [Fetch(ListRequest)]
      && session.source.features == [] && session.view.fits == []
    ensures list.ok && list.body != [] ==>
      var id := list.body[0].id;
      var r := locate(id);
      && selectHtml == Some(SelectMarkup(list.body))
      && events == [Fetch(ListRequest), Fetch(LocationRequest(id))]
      && (r.ok ==>
            && session.source.features == LocationFeatures(r.body.latitude, r.body.longitude, r.body.accuracy)
            && session.view.fits == [FitRequest(ExtentOf(session.source.features), MaxFitZoom, FitDurationMs)])
      && (!r.ok ==> session.source.features == [] && session.view.fits == [])
  {
    var names := StartupAuth(list, auth);
    events := names.events;
    session := new MapSession();
    if names.result.None? {
      return session, None, events;
    }
    var pairs := names.result.value;
    var html := GetNameSelect(pairs);
    selectHtml := Some(html);
    var outcome, requests := OnUpdateButton(session, pairs, InitialSelectedIndex(pairs), locate);
    events := events + requests;
    if outcome.Updated? {
      session.ZoomIn();
    }
  }
}
