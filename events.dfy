/**
 * The records shared by the components: the email snapshot handed to the
 * extractor and the dataset, and the event candidate reviewed in the sidebar.
 */
module Events {

  import opened Wrappers
  import opened JsValues

  datatype Status = Suggested | Edited | Confirmed | Rejected

  /** The opened message as the inbox integration reports it. */
  datatype EmailDetails = EmailDetails(
    senderName: string,
    senderEmail: string,
    subject: string,
    body: string,
    dateTime: string)

  /**
   * An event candidate as the code builds it. Title, description and location
   * hold whatever value the model response carried (a truthy non-string passes
   * through); the instants are the composed local date-time text, None when the
   * field is absent.
   */
  datatype Event = Event(
    id: Option<string>,
    title: Json,
    description: Json,
    startDateTime: Option<string>,
    endDateTime: Option<string>,
    location: Json,
    status: Status,
    mailLink: Option<string>)
}
