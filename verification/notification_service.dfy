/** Building notifications: the priority scale, its mapping to a display type and to push delivery,
    the four category constructors with their default priorities, and deadline notifications whose
    priority follows the days remaining. */
module NotificationService {
  import opened Wrappers
  import opened Text

  datatype Priority = Low | Medium | High | Critical

  datatype NotificationType = Info | Warning | Success | Alert

  datatype Category = ProcessCategory | DocumentCategory | LicenseCategory | SystemCategory
                    | WorkflowCategory | ApprovalCategory

  datatype NotificationData = NotificationData(
    title: string, message: string, notificationType: NotificationType, category: Category)

  function Rank(p: Priority): nat {
    match p
    case Low => 0
    case Medium => 1
    case High => 2
    case Critical => 3
  }

  /** `shouldSendPushNotification`. */
  predicate ShouldSendPush(p: Priority)
    ensures ShouldSendPush(p) <==> Rank(p) >= 2
  {
    p == High || p == Critical
  }

  /** `mapPriorityToType`: critical raises an alert, high a warning, the rest are informational;
      no priority maps to `success`. */
  function MapPriorityToType(p: Priority): (t: NotificationType)
    ensures t != Success
    ensures t == Info <==> Rank(p) <= 1
    ensures t == Alert <==> p == Critical
    ensures t == Warning <==> p == High
  {
    match p
    case Critical => Alert
    case High => Warning
    case Medium => Info
    case Low => Info
  }

  /** Exactly the notifications pushed to the device are the ones not shown as plain information,
      and the display type distinguishes the two pushed priorities. */
  lemma PushIffNotInfo(p: Priority, q: Priority)
    ensures ShouldSendPush(p) <==> MapPriorityToType(p) != Info
    ensures ShouldSendPush(p) && ShouldSendPush(q) && MapPriorityToType(p) == MapPriorityToType(q) ==> p == q
  {
  }

  /** A constructor's optional `priority` argument, with its declared default. */
  function PriorityOr(priority: Option<Priority>, default: Priority): Priority {
    if priority.Some? then priority.value else default
  }

  /** `createProcessNotification`, priority `medium` by default. */
  function CreateProcessNotification(processId: string, message: string, priority: Option<Priority>): (n: NotificationData)
    ensures n.category == ProcessCategory && n.message == message
    ensures n.title == "Processo " + processId
    ensures priority.None? ==> n.notificationType == Info
  {
    NotificationData("Processo " + processId, message, MapPriorityToType(PriorityOr(priority, Medium)), ProcessCategory)
  }

  /** `createDocumentNotification`, priority `medium` by default. */
  function CreateDocumentNotification(documentName: string, message: string, priority: Option<Priority>): (n: NotificationData)
    ensures n.category == DocumentCategory && n.message == message
    ensures n.title == "Documento: " + documentName
    ensures priority.None? ==> n.notificationType == Info
  {
    NotificationData("Documento: " + documentName, message, MapPriorityToType(PriorityOr(priority, Medium)), DocumentCategory)
  }

  /** `createLicenseNotification`, priority `high` by default. */
  function CreateLicenseNotification(licenseId: string, message: string, priority: Option<Priority>): (n: NotificationData)
    ensures n.category == LicenseCategory && n.message == message
    ensures n.title == "Licen\U{00E7}a " + licenseId
    ensures priority.None? ==> n.notificationType == Warning
  {
    NotificationData("Licen\U{00E7}a " + licenseId, message, MapPriorityToType(PriorityOr(priority, High)), LicenseCategory)
  }

  /** `createSystemNotification`, priority `low` by default. */
  function CreateSystemNotification(title: string, message: string, priority: Option<Priority>): (n: NotificationData)
    ensures n.category == SystemCategory && n.message == message && n.title == title
    ensures priority.None? ==> n.notificationType == Info
  {
    NotificationData(title, message, MapPriorityToType(PriorityOr(priority, Low)), SystemCategory)
  }

  /** An explicit priority decides the type the same way for every category. */
  lemma CategoriesShareTypeMapping(p: Priority, id: string, message: string)
    ensures CreateProcessNotification(id, message, Some(p)).notificationType == MapPriorityToType(p)
    ensures CreateDocumentNotification(id, message, Some(p)).notificationType == MapPriorityToType(p)
    ensures CreateLicenseNotification(id, message, Some(p)).notificationType == MapPriorityToType(p)
    ensures CreateSystemNotification(id, message, Some(p)).notificationType == MapPriorityToType(p)
  {
  }

  const MsPerDay: int := 1000 * 3600 * 24

  /** `Math.ceil((deadline - now) / (1000 * 3600 * 24))` on millisecond clock readings. */
  function DaysLeft(deadline: int, now: int): (days: int)
    ensures (days - 1) * MsPerDay < deadline - now <= days * MsPerDay
  {
    var q := (now - deadline) / MsPerDay;
    assert q * MsPerDay + (now - deadline) % MsPerDay == now - deadline;
    -q
  }

  /** The deadline bands: overdue is critical, up to three days high, up to a week medium. */
  function DeadlinePriority(daysLeft: int): (p: Priority)
    ensures p == Critical <==> daysLeft <= 0
    ensures p == High <==> 1 <= daysLeft <= 3
    ensures p == Medium <==> 4 <= daysLeft <= 7
    ensures p == Low <==> daysLeft > 7
  {
    if daysLeft <= 0 then Critical
    else if daysLeft <= 3 then High
    else if daysLeft <= 7 then Medium
    else Low
  }

  /** A nearer deadline is never less urgent. */
  lemma DeadlineMonotone(nearer: int, further: int)
    requires nearer <= further
    ensures Rank(DeadlinePriority(nearer)) >= Rank(DeadlinePriority(further))
  {
  }

  /** `message || ''` then `${notificationMessage || fallback}`: an absent or empty message gives
      way to the band's fallback text. */
  function Lead(message: Option<string>, fallback: string): (r: string)
    ensures message.Some? && message.value != "" ==> r == message.value
    ensures message.None? || message.value == "" ==> r == fallback
  {
    if message.Some? && message.value != "" then message.value else fallback
  }

  /** The band's default opening when no message is supplied. */
  function Fallback(daysLeft: int): string {
    if daysLeft <= 0 then "Prazo vencido para o processo"
    else if daysLeft <= 3 then "Prazo pr\U{00F3}ximo para o processo"
    else if daysLeft <= 7 then "Prazo se aproximando para o processo"
    else "Prazo para o processo"
  }

  /** `createDeadlineNotification` with the day count already computed: the message opens with the
      caller's text (or the band's fallback) followed by the process id. */
  function CreateDeadlineNotification(processId: string, daysLeft: int, message: Option<string>): (n: NotificationData)
    ensures n.category == ProcessCategory
    ensures n.title == "Prazo: " + processId
    ensures n.notificationType == MapPriorityToType(DeadlinePriority(daysLeft))
    ensures StartsWith(n.message, Lead(message, Fallback(daysLeft)) + " " + processId)
  {
    var days := IntToString(daysLeft);
    var opening := Lead(message, Fallback(daysLeft)) + " " + processId;
    var text :=
      if daysLeft <= 0 then opening + ". A\U{00E7}\U{00E3}o imediata necess\U{00E1}ria."
      else if daysLeft <= 3 then opening + ". Restam " + days + " dia(s)."
      else if daysLeft <= 7 then opening + ". Restam " + days + " dias."
      else opening + " em " + days + " dias.";
    assert text[..|opening|] == opening;
    NotificationData("Prazo: " + processId, text, MapPriorityToType(DeadlinePriority(daysLeft)), ProcessCategory)
  }

  /** A deadline notification is pushed exactly when at most three days remain. */
  lemma DeadlinePushIff(processId: string, daysLeft: int, message: Option<string>)
    ensures ShouldSendPush(DeadlinePriority(daysLeft)) <==> daysLeft <= 3
    ensures CreateDeadlineNotification(processId, daysLeft, message).notificationType != Info <==> daysLeft <= 3
  {
    PushIffNotInfo(DeadlinePriority(daysLeft), DeadlinePriority(daysLeft));
  }
}
