/** The inbound-SMS webhook: reads sender and body from the event, looks the
    sender up in the profile service, and creates a routed task carrying the
    message and the senior profile. The profile service and the task-creation
    call are parameters: each is a function from the request it receives to
    the outcome it reports. */
module RouteSms {
  import opened Shared

  /** The inbound webhook event. */
  datatype Event = Event(from: Option<string>, body: Option<string>)

  /** A profile record returned by the profile service. */
  datatype Profile = Profile(firstname: Option<string>, lastname: Option<string>,
                             age: Option<string>, address: Option<string>)

  /** The outcome of the profile request: it throws (network failure, bad
      response shape), or it answers with an optional `profiles` list. */
  datatype Lookup = LookupThrew | Answered(profiles: Option<seq<Profile>>)

  /** The attributes the handler gives the new task. */
  datatype SmsAttributes = SmsAttributes(channel: string, name: string, from: string, body: string, seniorData: SeniorData)

  /** The task-creation request. */
  datatype TaskRequest = TaskRequest(attributes: SmsAttributes, workflowSid: string, taskChannel: string)

  /** The outcome of task creation: the new task's SID, or the thrown error. */
  datatype Creation = Created(sid: string) | CreateThrew(error: string)

  /** The success body `{ success, taskSid }`. */
  datatype SuccessBody = SuccessBody(success: bool, taskSid: string)

  /** The arguments of the one callback call: `(null, body)` or `(error)`. */
  datatype Callback = Callback(error: Option<string>, response: Option<SuccessBody>)

  /** Everything one handler run sends out. */
  datatype Run = Run(phoneQuery: string, request: TaskRequest, callback: Callback)

  // ------------------------------------------------------------ phone query

  /** `from.replace('+', '%2B')`: a string pattern, so only the first '+' is
      replaced. */
  function EncodePhone(s: string): (r: string)
    ensures |r| == |s| || |r| == |s| + 2
  {
    if |s| == 0 then s
    else if s[0] == '+' then "%2B" + s[1..]
    else [s[0]] + EncodePhone(s[1..])
  }

  /** A sender without '+' is sent unchanged. */
  lemma {:induction false} EncodeWithoutPlus(s: string)
    requires '+' !in s
    ensures EncodePhone(s) == s
  {
    if |s| > 0 {
      assert s == [s[0]] + s[1..];
      EncodeWithoutPlus(s[1..]);
    }
  }

  /** Otherwise exactly the first '+' becomes "%2B" and everything before and
      after it is unchanged. */
  lemma {:induction false} EncodeFirstPlus(s: string, i: nat)
    requires i < |s| && s[i] == '+' && '+' !in s[..i]
    ensures EncodePhone(s) == s[..i] + "%2B" + s[i + 1..]
  {
    if i > 0 {
      assert s[0] == s[..i][0];
      assert s[1..][..i - 1] == s[1..i];
      assert '+' !in s[1..][..i - 1] by {
        assert forall x :: x in s[1..i] ==> x in s[..i];
      }
      EncodeFirstPlus(s[1..], i - 1);
      assert s[..i] == [s[0]] + s[1..][..i - 1];
      assert s[i + 1..] == s[1..][i..];
    }
  }

  /** Turns the first "%2B" back into '+'. */
  function DecodePhone(s: string): string
  {
    if |s| < 3 then s
    else if s[..3] == "%2B" then "+" + s[3..]
    else [s[0]] + DecodePhone(s[1..])
  }

  /** A sender with no '%' in it survives the encoding: decoding the query
      gives the sender back. */
  lemma {:induction false} PhoneRoundTrip(s: string)
    requires '%' !in s
    ensures DecodePhone(EncodePhone(s)) == s
  {
    if |s| == 0 {
    } else if s[0] == '+' {
      assert EncodePhone(s)[..3] == "%2B";
      assert EncodePhone(s)[3..] == s[1..];
    } else {
      assert s == [s[0]] + s[1..];
      PhoneRoundTrip(s[1..]);
      var e := EncodePhone(s);
      assert e == [s[0]] + EncodePhone(s[1..]);
      if |e| >= 3 {
        assert e[0] != '%';
        assert e[..3] != "%2B";
        assert e[1..] == EncodePhone(s[1..]);
      }
    }
  }

  // ---------------------------------------------------------- senior record

  /** The senior record built from the profile service's answer: the first
      profile (or `{}` when the list is missing or empty), with JavaScript
      `||` defaults. */
  function SeniorFromProfiles(profiles: Option<seq<Profile>>): (r: SeniorData)
    ensures r.name.Some? && r.age.Some? && r.address.Some?
  {
    var p := if profiles.Some? && |profiles.value| > 0 then profiles.value[0]
             else Profile(None, None, None, None);
    SeniorData(
      Some(if Truthy(p.firstname) && Truthy(p.lastname)
           then p.firstname.value + " " + p.lastname.value else "Unknown"),
      Some(OrElse(p.age, "N/A")),
      Some(OrElse(p.address, "N/A")))
  }

  /** The record after the lookup: the derived record when the service
      answered, the empty object when the lookup threw. */
  function SeniorAfterLookup(lookup: Lookup): (r: SeniorData)
    ensures lookup.LookupThrew? <==> r == EmptySeniorData
  {
    match lookup
    case LookupThrew => EmptySeniorData
    case Answered(ps) => SeniorFromProfiles(ps)
  }

  /** What the senior record holds. With no profile it is the defaults
      Unknown / N/A / N/A; with one, the name is "first last" when both are
      non-empty and 'Unknown' otherwise, the other fields are the profile's
      when non-empty and 'N/A' otherwise. A lookup that throws leaves the
      empty object, not the defaults. Every derived field is non-empty. */
  lemma SeniorDataDerivation(lookup: Lookup)
    ensures lookup.LookupThrew? ==> SeniorAfterLookup(lookup) == EmptySeniorData
    ensures lookup.Answered? && (lookup.profiles.None? || |lookup.profiles.value| == 0) ==>
      SeniorAfterLookup(lookup) == SeniorData(Some("Unknown"), Some("N/A"), Some("N/A"))
    ensures lookup.Answered? && lookup.profiles.Some? && |lookup.profiles.value| > 0 ==>
      var p := lookup.profiles.value[0];
      var sd := SeniorAfterLookup(lookup);
      && (Truthy(p.firstname) && Truthy(p.lastname) ==>
            sd.name == Some(p.firstname.value + " " + p.lastname.value))
      && (!(Truthy(p.firstname) && Truthy(p.lastname)) ==> sd.name == Some("Unknown"))
      && sd.age == Some(if Truthy(p.age) then p.age.value else "N/A")
      && sd.address == Some(if Truthy(p.address) then p.address.value else "N/A")
    ensures lookup.Answered? ==>
      var sd := SeniorAfterLookup(lookup);
      sd.name.value != "" && sd.age.value != "" && sd.address.value != ""
  {
  }

  // ---------------------------------------------------------------- handler

  /** One run of the handler. */
  function Handle(event: Event, workflowSid: string,
                  profileService: string -> Lookup,
                  createTask: TaskRequest -> Creation): (r: Run)
    ensures r.request.taskChannel == "sms" && r.request.attributes.channel == "sms"
    ensures r.request.workflowSid == workflowSid
    ensures r.request.attributes.name == "SMS from " + r.request.attributes.from
    ensures r.request.attributes.from != "" && r.request.attributes.body != ""
    ensures r.callback.error.None? <==> r.callback.response.Some?
    ensures r.callback.response.Some? ==> createTask(r.request) == Created(r.callback.response.value.taskSid)
  {
    var from := OrElse(event.from, "unknown");
    var body := OrElse(event.body, "No message body");
    var query := EncodePhone(from);
    var senior := SeniorAfterLookup(profileService(query));
    var attrs := SmsAttributes("sms", "SMS from " + from, from, body, senior);
    var request := TaskRequest(attrs, workflowSid, "sms");
    var callback := match createTask(request)
      case Created(sid) => Callback(None, Some(SuccessBody(true, sid)))
      case CreateThrew(e) => Callback(Some(e), None);
    Run(query, request, callback)
  }

  /** The handler's promises: missing or empty sender and body get their
      defaults; the lookup is asked with the encoded sender; the task always
      goes out on the 'sms' channel with the fixed attribute shape, even when
      the lookup threw; and the callback reports the creation outcome, the new
      task's SID on success and the thrown error otherwise, never both. */
  lemma HandleContract(event: Event, workflowSid: string,
                       profileService: string -> Lookup,
                       createTask: TaskRequest -> Creation)
    ensures var r := Handle(event, workflowSid, profileService, createTask);
      var a := r.request.attributes;
      && a.from == (if Truthy(event.from) then event.from.value else "unknown")
      && a.body == (if Truthy(event.body) then event.body.value else "No message body")
      && r.phoneQuery == EncodePhone(a.from)
      && a.seniorData == SeniorAfterLookup(profileService(r.phoneQuery))
      && a.channel == "sms" && r.request.taskChannel == "sms"
      && a.name == "SMS from " + a.from
      && r.request.workflowSid == workflowSid
      && (r.callback.error.None? <==> r.callback.response.Some?)
      && (createTask(r.request).Created? ==>
            r.callback == Callback(None, Some(SuccessBody(true, createTask(r.request).sid))))
      && (createTask(r.request).CreateThrew? ==>
            r.callback == Callback(Some(createTask(r.request).error), None))
  {
  }
}
