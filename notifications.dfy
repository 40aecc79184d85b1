/**
 * The notification row both services append to the notification table.
 * The template text around the names (and the real-time push that follows
 * every insert) is not part of this model; what is kept is who the row is
 * addressed to, its type and title, and the values spliced into its content.
 */
module Notifications {

  type UserId = string

  /** The TypeNotification of the data store (EMERGENCY is only used by the emergency flow). */
  datatype Kind = WarningType | AppointmentType

  /** The fixed titles the services write. */
  datatype Title =
    | HealthWarning          // warning after a daily health submission
    | AppointmentBooked      // a patient or a doctor booked an appointment
    | AppointmentAccepted    // a doctor approved it
    | AppointmentRejected    // a doctor refused it
    | AppointmentCanceled    // it was canceled

  /**
   * One notification row. `actor` is the full name spliced into the content,
   * `metrics` the list of flagged metrics (empty except for health warnings).
   */
  datatype Notification = Notification(
    kind: Kind,
    title: Title,
    userId: UserId,
    actor: string,
    metrics: string,
    isRead: bool)
}
