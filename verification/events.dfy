/** The events page: search and event-type filter, the type badge, the
    organiser label and the four headline counts. */
module Events {
  import opened Wrappers
  import Seqs
  import Search

  /** An event row as the page reads it, with the joined company's name. */
  datatype Event = Event(
    id: string,
    name: string,
    eventType: string,
    companyId: Option<string>,
    organizerName: Option<string>,
    location: Option<string>,
    attendeeCount: Option<int>,
    companyName: Option<string>)

  /** The search box: event name, organiser name or company name. */
  predicate MatchesSearch(e: Event, term: string) {
    || Search.TextMatches(e.name, term)
    || Search.OptionalMatches(e.organizerName, term)
    || Search.OptionalMatches(e.companyName, term)
  }

  /** The type buttons: `'all'`, or exactly the event's type. */
  predicate MatchesType(e: Event, selected: string) {
    selected == "all" || e.eventType == selected
  }

  /** `filteredEvents`. */
  function FilteredEvents(events: seq<Event>, term: string, selected: string): (r: seq<Event>)
    ensures Seqs.IsSubsequence(r, events)
    ensures forall i :: 0 <= i < |events| ==>
              (events[i] in r <==> MatchesSearch(events[i], term) && MatchesType(events[i], selected))
    ensures selected != "all" ==> forall i :: 0 <= i < |r| ==> r[i].eventType == selected
    ensures term == "" && selected == "all" ==> r == events
  {
    EmptySearchMatchesAll(events);
    Seqs.Filter(events, e => MatchesSearch(e, term) && MatchesType(e, selected))
  }

  lemma EmptySearchMatchesAll(events: seq<Event>)
    ensures forall i :: 0 <= i < |events| ==> MatchesSearch(events[i], "")
  {
    forall i | 0 <= i < |events| ensures MatchesSearch(events[i], "") {
      Search.EmptyTermMatches(events[i].name);
    }
  }

  /** `getEventTypeColor`: the primary badge for HTW events only. */
  function TypeColor(eventType: string): (r: string)
    ensures r == "bg-primary text-primary-foreground" <==> eventType == "htw"
    ensures r != "bg-primary text-primary-foreground" ==> r == "bg-secondary text-secondary-foreground"
  {
    if eventType == "htw" then "bg-primary text-primary-foreground"
    else "bg-secondary text-secondary-foreground"
  }

  /** The organiser line of an event card: HTW's own events say so; others
      name the company, or a generic label when there is no non-empty
      company name. */
  function OrganizerLabel(e: Event): (r: string)
    ensures e.eventType == "htw" ==> r == "HTW Organized"
    ensures e.eventType != "htw" && e.companyName.Some? && e.companyName.value != "" ==> r == e.companyName.value
    ensures e.eventType != "htw" && (e.companyName.None? || e.companyName.value == "") ==> r == "External Company"
  {
    if e.eventType == "htw" then "HTW Organized"
    else if e.companyName.Some? && e.companyName.value != "" then e.companyName.value
    else "External Company"
  }

  // ---------------------------------------------------------------------
  // Headline counts
  // ---------------------------------------------------------------------

  predicate IsHtw(e: Event) {
    e.eventType == "htw"
  }

  predicate IsCompanyEvent(e: Event) {
    e.eventType == "company"
  }

  /** `attendee_count || 0`: a missing count counts as none. */
  function Attendees(e: Event): int {
    e.attendeeCount.GetOr(0)
  }

  datatype Counts = Counts(total: nat, htw: nat, company: nat, attendees: int)

  /** `totalEvents`, `htwEvents`, `companyEvents` and `totalAttendees`. */
  function ComputeCounts(events: seq<Event>): (r: Counts)
    ensures r.htw + r.company <= r.total == |events|
    ensures r.htw == |Seqs.Filter(events, IsHtw)| && r.company == |Seqs.Filter(events, IsCompanyEvent)|
    ensures r.attendees == Seqs.Sum(events, Attendees)
  {
    Seqs.FilterDisjointLength(events, IsHtw, IsCompanyEvent);
    Counts(|events|, |Seqs.Filter(events, IsHtw)|, |Seqs.Filter(events, IsCompanyEvent)|,
           Seqs.Sum(events, Attendees))
  }

  /** With no negative counts, the attendee total is at least any one
      event's count, and events without a count add nothing. */
  lemma AttendeesBound(events: seq<Event>, i: int)
    requires forall j :: 0 <= j < |events| ==> Attendees(events[j]) >= 0
    requires 0 <= i < |events|
    ensures Attendees(events[i]) <= ComputeCounts(events).attendees
    ensures events[i].attendeeCount.None? ==>
              ComputeCounts(events).attendees
              == ComputeCounts(events[..i] + events[i + 1..]).attendees
  {
    Seqs.SumBoundsTerm(events, Attendees, i);
    Seqs.SumAppend(events[..i], events[i..], Attendees);
    Seqs.SumFront(events[i..], Attendees);
    assert events[..i] + events[i..] == events;
    assert events[i..][1..] == events[i + 1..];
    Seqs.SumAppend(events[..i], events[i + 1..], Attendees);
  }
}
