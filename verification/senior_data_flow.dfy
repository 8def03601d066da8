/** How the senior record travels from the SMS webhook to the agent's
    "Senior Info" tab: the task created for an inbound SMS carries the record
    in its attributes, and the tab reads it back with its own defaults. */
module SeniorDataFlow {
  import opened Shared
  import RouteSms
  import TabbedCrm

  /** The task the panel sees for an SMS task request. */
  function TaskFor(req: RouteSms.TaskRequest, sid: string, taskSid: string): TabbedCrm.Task {
    TabbedCrm.Task(sid, taskSid,
      TabbedCrm.TaskAttributes(None, Some(req.attributes.seniorData), Some(req.attributes.body)))
  }

  /** Even when the profile lookup throws and the webhook stores the empty
      object, the agent sees Unknown / N/A / N/A and the message; when the
      service answered, the agent sees exactly the fields the webhook derived. */
  lemma PanelShowsSmsSenior(event: RouteSms.Event, workflowSid: string,
                            profileService: string -> RouteSms.Lookup,
                            createTask: RouteSms.TaskRequest -> RouteSms.Creation,
                            sid: string, taskSid: string)
    ensures var run := RouteSms.Handle(event, workflowSid, profileService, createTask);
      var panel := TabbedCrm.SeniorInfoPanel(Some(TaskFor(run.request, sid, taskSid)));
      var lookup := profileService(run.phoneQuery);
      && panel.SeniorInfo?
      && panel.message == Some(run.request.attributes.body)
      && (lookup.LookupThrew? ==> panel.name == "Unknown" && panel.age == "N/A" && panel.address == "N/A")
      && (lookup.Answered? ==>
            var sd := RouteSms.SeniorFromProfiles(lookup.profiles);
            Some(panel.name) == sd.name && Some(panel.age) == sd.age && Some(panel.address) == sd.address)
  {
    var run := RouteSms.Handle(event, workflowSid, profileService, createTask);
    RouteSms.HandleContract(event, workflowSid, profileService, createTask);
    TabbedCrm.SeniorInfoDefaults(TaskFor(run.request, sid, taskSid));
  }
}
