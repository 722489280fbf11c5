# HIV-treatment clinic: a verified model of the service core

This project models, in Dafny, the core logic of an HIV-treatment clinic
system. The system has two parts.

- A Spring backend whose services keep the clinic's tables:
  - doctor schedules, and the appointment slots generated from them;
  - appointments;
  - lab-test orders, payments and lab-test results;
  - medical records and the record ↔ lab-result association;
  - prescriptions (including the batch created from an examination) and prescription items;
  - medication reminders and general reminders;
  - treatment protocols;
  - user management, registration, sign-in and the bearer-token request filter.
- A STOMP chat:
  - the browser client `chat-client-example.js`;
  - the chat service and controller;
  - the WebSocket presence listener.

How the model is built:

- **Tables.** Each repository is a `Tables.Table`: a map from id to a record datatype, plus the next
  identity value. All the clinic tables are fields of one class, `ClinicDb.Database`.
  - A service method changes only the fields named in its `modifies` clause.
  - Its `ensures` clauses state its whole new state.
  - An error path leaves the tables as they were, which is the rollback of a transactional service.
- **Values.** Statuses are the literal Vietnamese strings the code compares. Dates are validated
  year-month-day triples, and times are minutes since midnight. Money is an integer.
- **Parameters.** Some inputs are passed in rather than modelled:
  - clock reads;
  - the encoded password;
  - the principal checked by the authentication manager;
  - the token validator and subject reader;
  - the STOMP channel of the client.
- **Chat client.** It is a class whose fields are the client's module-level variables. Its channel
  records every subscription, frame and REST call in order.
- **Loops.** Code that loops in the source is a method with a loop. That method is proved against a
  specification function, and the properties the source promises are proved as lemmas about that
  function.

## Model

| member | source | states |
|---|---|---|
| ChatMessages.ConversationTopic | chat-client-example.js:119-121 | the conversation topic is "/topic/conversations." followed by exactly the conversation id |
| ChatMessages.ConversationTopicInjective | chat-client-example.js:119-121 | different conversation ids are delivered on different topics |
| ChatClient.HeldBeforeAppend | chat-client-example.js:112-122 | a conversation subscription still held after one more subscription event was held before it and is not released by that event |
| ChatClient.PublicTopicIsNotConversationTopic | chat-client-example.js:37 | the public topic is not a conversation topic, so the public subscription never counts as a conversation handle |
| ChatClient.ReceiverId | chat-client-example.js:283-287 | the receiver is the id of the first participant that differs from the current user; none exactly when every participant is the current user |
| ChatClient.ReceiverOfPair | chat-client-example.js:283-287 | in a two-person conversation the receiver is the other person, in either participant order |
| ChatClient.PublicHandling | chat-client-example.js:65-83 | a JOIN frame becomes the notice "<senderName> joined the chat", a LEAVE frame "<senderName> left the chat", anything else is displayed |
| ChatClient.JoinMessage | chat-client-example.js:44-49 | the JOIN frame carries type JOIN, the user's id and name, and the content "<name> joined the chat", and no receiver or conversation |
| ChatClient.LeaveMessage | chat-client-example.js:262-266 | the LEAVE frame carries type LEAVE and the user's id and name, and no content |
| ChatClient.OutgoingMessage | chat-client-example.js:91-98 | a sent message has type CHAT, the current user as sender, the resolved receiver, the untrimmed content and the selected conversation id |
| ChatClient.Channel.constructor | chat-client-example.js:20-21 | a new transport has empty subscription, frame, request and connect logs |
| ChatClient.Channel.Connect | chat-client-example.js:29 | connecting appends the connect headers to the connect log and changes no other log |
| ChatClient.Channel.Subscribe | chat-client-example.js:37 | subscribing appends one subscribe event and returns its position as the handle; no other log changes (also chat-client-example.js:119-122) |
| ChatClient.Channel.Release | chat-client-example.js:115 | releasing a handle appends one unsubscribe event for it; no other log changes |
| ChatClient.Channel.Send | chat-client-example.js:52 | sending appends one frame with the destination, no headers and the body; no other log changes (also chat-client-example.js:101-105) |
| ChatClient.Channel.Call | chat-client-example.js:143-241 | a REST call appends its request to the request log; no other log changes |
| ChatClient.Channel.Disconnect | chat-client-example.js:271 | closing counts one disconnect; no other log changes |
| ChatClient.Client.constructor | chat-client-example.js:13-15 | the client starts with no STOMP client, no user, no selected conversation and no conversation subscription |
| ChatClient.Client.ConnectToChat | chat-client-example.js:18-30 | connecting creates the STOMP client and sends the JWT only as the connect header "Authorization: Bearer <token>"; nothing is subscribed or sent |
| ChatClient.Client.OnConnected | chat-client-example.js:33-40 | on connect the public topic is subscribed and then the identity is fetched; no frame is sent yet |
| ChatClient.Client.OnIdentityFetched | chat-client-example.js:40-56 | when the identity arrives it becomes the current user, and only then is the JOIN frame sent to "/app/chat.addUser" and the conversations loaded; a failed fetch leaves the user null and sends nothing |
| ChatClient.Client.OnMessageReceived | chat-client-example.js:65-83 | a public frame goes to exactly one handler: a join or leave notice, or the display |
| ChatClient.Client.SendMessage | chat-client-example.js:86-105 | nothing is published without a client, a selected conversation or non-blank content (JavaScript trim); past those guards, without a current user the handler throws a TypeError and sends nothing; otherwise exactly one CHAT frame goes to "/app/chat.sendPrivateMessage/" + the conversation id |
| ChatClient.Client.SubscribeToConversation | chat-client-example.js:112-126 | the previous conversation handle is released before the new topic is subscribed, so exactly one conversation subscription is held, followed by one mark-read of that conversation; without a client the call throws |
| ChatClient.Client.OnConversationMessageReceived | chat-client-example.js:129-140 | an inbound conversation frame is always displayed, and a mark-read of its conversation is issued exactly when its receiver is the current user |
| ChatClient.Client.SelectConversation | chat-client-example.js:244-255 | the conversation is selected before subscribing; re-selecting is not deduplicated: every selection issues one mark-read and one load of page 0, size 20 |
| ChatClient.Client.Disconnect | chat-client-example.js:258-274 | with a client, a LEAVE frame is sent when a user is set and then the transport is closed; without a client nothing happens; the client reference is never cleared |
| ChatClient.SwitchTwice | chat-client-example.js:244-255 | after switching from one conversation to another, only the second conversation's subscription is held, and each switch issued its own mark-read and message load (also chat-client-example.js:112-122) |
| ChatService.ConversationIdFor | backend/src/main/java/com/fpt/hivtreatment/service/impl/ChatServiceImpl.java:113-115 | the derived id is "conv_" followed by the smaller and then the larger user id |
| ChatService.ConversationIdSymmetric | backend/src/main/java/com/fpt/hivtreatment/service/impl/ChatServiceImpl.java:49-51 | the derived id is the same whichever user comes first (also backend/src/main/java/com/fpt/hivtreatment/service/impl/ChatServiceImpl.java:113-115) |
| ChatService.FirstUnderscoreOf | backend/src/main/java/com/fpt/hivtreatment/service/impl/ChatServiceImpl.java:51 | in "<x>_<y>" with no underscore in x, the first underscore is right after x |
| ChatService.SplitAtSeparator | backend/src/main/java/com/fpt/hivtreatment/service/impl/ChatServiceImpl.java:51 | two "<x>_<y>" strings with underscore-free x parts are equal only when both parts are |
| ChatService.OrderedIdInjective | backend/src/main/java/com/fpt/hivtreatment/service/impl/ChatServiceImpl.java:51 | the formatted ids of two ordered pairs are equal only when the pairs are |
| ChatService.ConversationIdInjective | backend/src/main/java/com/fpt/hivtreatment/service/impl/ChatServiceImpl.java:113-115 | two pairs of users share a derived conversation id only when they are the same pair |
| ChatService.ResolveConversationId | backend/src/main/java/com/fpt/hivtreatment/service/impl/ChatServiceImpl.java:44-55 | a non-empty given conversation id is kept; a null or empty one is replaced by the derived id of sender and receiver |
| ChatService.MarkedRead | backend/src/main/java/com/fpt/hivtreatment/repository/ChatMessageRepository.java:31-33 | the bulk update sets isRead on exactly the messages of that conversation whose receiver is that user and changes nothing else |
| ChatService.MarkedReadClearsUnread | backend/src/main/java/com/fpt/hivtreatment/service/impl/ChatServiceImpl.java:147-149 | after marking a conversation read for a user, that user has no unread message in it |
| ChatService.MarkedReadKeepsOthers | backend/src/main/java/com/fpt/hivtreatment/service/impl/ChatServiceImpl.java:147-149 | marking one conversation read for one user leaves every other (conversation, user) unread count as it was |
| ChatService.CountUnreadAppend | backend/src/main/java/com/fpt/hivtreatment/repository/ChatMessageRepository.java:27-29 | a new message adds one to the unread count of its own conversation and receiver exactly when it is unread |
| ChatService.UnreadCount | backend/src/main/java/com/fpt/hivtreatment/service/impl/ChatServiceImpl.java:171-176 | a participant's unread count is the number of unread messages addressed to it in the conversation; a non-participant's is 0 |
| ChatService.ConversationDto | backend/src/main/java/com/fpt/hivtreatment/service/impl/ChatServiceImpl.java:165-187 | the conversation view carries the row's id, conversation id, participants and last message, and the viewer's unread count |
| ChatService.MessageDto | backend/src/main/java/com/fpt/hivtreatment/service/impl/ChatServiceImpl.java:151-163 | the message view copies id, both ends with their names, content, timestamp, read flag and conversation id, and never sets the type |
| ChatService.NewestFirst | backend/src/main/java/com/fpt/hivtreatment/repository/ChatMessageRepository.java:20 | the conversation's messages with their ids, each a stored message of that conversation, in descending id order |
| ChatService.NewestFirstPosition | backend/src/main/java/com/fpt/hivtreatment/repository/ChatMessageRepository.java:20 | every stored message of the conversation has a position in its listing |
| ChatService.NewestFirstComplete | backend/src/main/java/com/fpt/hivtreatment/repository/ChatMessageRepository.java:20 | every stored message of the conversation is listed |
| ChatService.MessagesPage | backend/src/main/java/com/fpt/hivtreatment/service/impl/ChatServiceImpl.java:92-101 | a negative page or a size below 1 is refused; otherwise the page holds at most `size` views of the conversation's own messages, with the total count of the conversation |
| ChatService.PageDtos | backend/src/main/java/com/fpt/hivtreatment/service/impl/ChatServiceImpl.java:96-98 | each page entry becomes its message view, in order |
| ChatService.PageDtosListed | backend/src/main/java/com/fpt/hivtreatment/service/impl/ChatServiceImpl.java:96-98 | every view on a page is the view of a stored message of that conversation |
| ChatService.PageAfterMarkRead | backend/src/main/java/com/fpt/hivtreatment/controller/ChatController.java:115-127 | after mark-read, every message on the fetched page addressed to the reader shows as read |
| ChatService.SaveError | backend/src/main/java/com/fpt/hivtreatment/service/impl/ChatServiceImpl.java:34-80 | the save succeeds exactly when both users are stored and the content is present; with both users stored, a missing content breaks the NOT NULL column (also backend/src/main/java/com/fpt/hivtreatment/model/entity/ChatMessage.java:33-34) |
| ChatService.ChatStore.SaveMessage | backend/src/main/java/com/fpt/hivtreatment/service/impl/ChatServiceImpl.java:34-84 | fails exactly with `SaveError`: a missing sender or receiver id reaches `findById` and fails with InvalidDataAccessApiUsageException, an unknown one throws RuntimeException; otherwise the message is appended unread with the resolved conversation id, written back into the DTO, and its content and time become the conversation's last message, creating the conversation with both users when it is new; failures change nothing |
| ChatService.ChatStore.FindOrCreateConversation | backend/src/main/java/com/fpt/hivtreatment/service/impl/ChatServiceImpl.java:103-130 | an unknown user throws; otherwise the derived conversation is returned as it is stored, or created once with both users as participants, so repeated calls never create a duplicate |
| ChatService.ChatStore.MarkMessagesAsRead | backend/src/main/java/com/fpt/hivtreatment/service/impl/ChatServiceImpl.java:145-149 | the message table becomes its marked-read image; users and conversations are unchanged |
| ChatController.Broker.constructor | backend/src/main/java/com/fpt/hivtreatment/controller/ChatController.java:34 | the message broker starts with nothing published |
| ChatController.Broker.ConvertAndSend | backend/src/main/java/com/fpt/hivtreatment/controller/ChatController.java:62 | publishing appends exactly one publication of the message on the destination |
| ChatController.WebSocketSession.constructor | backend/src/main/java/com/fpt/hivtreatment/controller/ChatController.java:76 | a new session has no attributes |
| ChatController.SendMessage | backend/src/main/java/com/fpt/hivtreatment/controller/ChatController.java:41-45 | the public send saves the message and broadcasts the saved copy on "/topic/public"; a failed save fails with the save's error and publishes nothing |
| ChatController.SendPrivateMessage | backend/src/main/java/com/fpt/hivtreatment/controller/ChatController.java:52-65 | the private send saves first and publishes the saved copy on "/topic/conversations." + the path conversation id, the topic the client subscribes to; a failed save fails with the save's error and publishes nothing |
| ChatController.AddUser | backend/src/main/java/com/fpt/hivtreatment/controller/ChatController.java:72-81 | the sender name is stored under "username" and the sender id under "userId", and the payload is returned unchanged for "/topic/public"; a null value throws from the session map, after any earlier put |
| ChatController.GetOrCreateConversation | backend/src/main/java/com/fpt/hivtreatment/controller/ChatController.java:99-107 | the conversation always pairs the authenticated user with the path user, and it is found exactly when both users exist; no message changes |
| ChatController.GetMessages | backend/src/main/java/com/fpt/hivtreatment/controller/ChatController.java:112-136 | the conversation is marked read for the authenticated user before the page is loaded; page defaults to 0 and size to 20; every message on the page addressed to the reader shows as read |
| ChatController.SendMessageRest | backend/src/main/java/com/fpt/hivtreatment/controller/ChatController.java:141-156 | the sender id is overwritten with the authenticated user's id before the save, and the saved copy is published on its own conversation's topic; a failed save, an unknown user among them, fails with the save's error and publishes nothing |
| ChatController.MarkMessagesAsRead | backend/src/main/java/com/fpt/hivtreatment/controller/ChatController.java:177-186 | the conversation is marked read for the authenticated user, who then has no unread message in it |
| WebSocketEvents.HandleConnect | backend/src/main/java/com/fpt/hivtreatment/controller/WebSocketEventListener.java:20-23 | a connect event publishes nothing |
| WebSocketEvents.StringAttribute | backend/src/main/java/com/fpt/hivtreatment/controller/WebSocketEventListener.java:29 | reading a session attribute as a string gives null when absent, the value when it is a string, and a ClassCastException otherwise |
| WebSocketEvents.LongAttribute | backend/src/main/java/com/fpt/hivtreatment/controller/WebSocketEventListener.java:30 | reading a session attribute as a Long gives null when absent, the value when it is a number, and a ClassCastException otherwise |
| WebSocketEvents.LeaveAnnouncement | backend/src/main/java/com/fpt/hivtreatment/controller/WebSocketEventListener.java:35-39 | the LEAVE message has type "LEAVE", the session's user id as sender id and its username as sender name, and nothing else |
| WebSocketEvents.HandleDisconnect | backend/src/main/java/com/fpt/hivtreatment/controller/WebSocketEventListener.java:25-43 | a disconnect publishes at most one message: a LEAVE on "/topic/public", exactly when the session holds a "username" (and both attributes have their expected types) |
| WebSocketEvents.LeaveCarriesJoinedIdentity | backend/src/main/java/com/fpt/hivtreatment/controller/WebSocketEventListener.java:29-41 | after a JOIN stored the name and id in the session, the disconnect announces LEAVE with that same name and id (also backend/src/main/java/com/fpt/hivtreatment/controller/ChatController.java:78-79) |
| WebSocketEvents.ClientShowsLeave | backend/src/main/java/com/fpt/hivtreatment/controller/WebSocketEventListener.java:41 | the browser shows the server's LEAVE as "<name> left the chat" (also chat-client-example.js:75-77) |
| WebSocketEvents.ClientShowsJoin | backend/src/main/java/com/fpt/hivtreatment/controller/ChatController.java:72-81 | the JOIN the browser sends comes back on the public topic and is shown as "<name> joined the chat" (also chat-client-example.js:71-73) |
| WebSocketEvents.SavedMessagesAreDisplayed | backend/src/main/java/com/fpt/hivtreatment/controller/ChatController.java:41-45 | a saved message broadcast on the public topic has no type and is therefore displayed, not treated as a notice (also chat-client-example.js:79-81) |
| AppointmentSlots.BreakRuleIsOverlap | backend/src/main/java/com/fpt/hivtreatment/service/impl/AppointmentSlotServiceImpl.java:107-135 | for a proper slot and break, the three break cases together are exactly "the slot overlaps the break" |
| AppointmentSlots.NoBreakNoDrop | backend/src/main/java/com/fpt/hivtreatment/service/impl/AppointmentSlotServiceImpl.java:106-107 | when either break bound is null no slot is dropped for a break: a slot is offered exactly when it lies in the shift (also backend/src/main/java/com/fpt/hivtreatment/service/impl/AppointmentSlotServiceImpl.java:151) |
| AppointmentSlots.DefaultGrid | backend/src/main/java/com/fpt/hivtreatment/service/impl/AppointmentSlotServiceImpl.java:238-255 | the default grid is 18 consecutive 30-minute slots from 08:00 to 17:00 |
| AppointmentSlots.DefaultTimeSlots | backend/src/main/java/com/fpt/hivtreatment/service/impl/AppointmentSlotServiceImpl.java:239-255 | the loop that steps from 08:00 while before 17:00 builds exactly the default grid |
| AppointmentSlots.CreateDefaultTimeSlots | backend/src/main/java/com/fpt/hivtreatment/service/impl/AppointmentSlotServiceImpl.java:235-259 | the time-slot table gains exactly the default grid, in order |
| AppointmentSlots.NewSlots | backend/src/main/java/com/fpt/hivtreatment/service/impl/AppointmentSlotServiceImpl.java:174-183 | one available slot per time slot, linked to the schedule, that time slot and the doctor, in order |
| AppointmentSlots.GenerateAppointmentSlots | backend/src/main/java/com/fpt/hivtreatment/service/impl/AppointmentSlotServiceImpl.java:41-192 | an unknown schedule, doctor or work shift throws RuntimeException; then a missing date throws NullPointerException, a malformed one DateTimeParseException, and a schedule whose slots are booked is refused by the appointments' foreign key (DataIntegrityViolationException); otherwise the schedule's old slots are deleted (regeneration replaces), an empty time-slot table is first filled with the default grid, and one available slot is saved per time slot inside the shift and outside the break, the result empty when none is; failures change nothing |
| AppointmentSlots.SaveSlots | backend/src/main/java/com/fpt/hivtreatment/service/impl/AppointmentSlotServiceImpl.java:173-183 | the saving loop inserts the new slots in order and returns their keys |
| AppointmentSlots.SlotsByDoctorAndDate | backend/src/main/java/com/fpt/hivtreatment/service/impl/AppointmentSlotServiceImpl.java:202-230 | the result is exactly the slots of that doctor whose schedule falls on that date; a malformed date or an unknown doctor gives the empty list instead of an error |
| Appointments.MapToResponse | backend/src/main/java/com/fpt/hivtreatment/service/impl/AppointmentServiceImpl.java:299-361 | the response carries the appointment's id, slot, doctor and doctor name, status and reason; an appointment without a patient shows the patient name "Ẩn danh" and no patient id |
| Appointments.BookingError | backend/src/main/java/com/fpt/hivtreatment/service/impl/AppointmentServiceImpl.java:56-86 | the booking checks in order: an unknown slot is not found, a taken slot is an illegal state; the patient is looked up only when an id is given and the request is not anonymous (merge branch fd42c14), then the doctor; when no check fails the slot exists and is free and the doctor and patient exist |
| Appointments.SlotsAfterBooking | backend/src/main/java/com/fpt/hivtreatment/service/impl/AppointmentServiceImpl.java:104-106 | booking closes exactly the booked slot and leaves every other slot as it was |
| Appointments.SlotNotBookedTwice | backend/src/main/java/com/fpt/hivtreatment/service/impl/AppointmentServiceImpl.java:62-66 | after a successful booking, a second booking of the same slot fails with an illegal state (also backend/src/main/java/com/fpt/hivtreatment/service/impl/AppointmentServiceImpl.java:104-106) |
| Appointments.CancelReopensSlot | backend/src/main/java/com/fpt/hivtreatment/service/impl/AppointmentServiceImpl.java:124-130 | cancelling the appointment ("Đã hủy") frees its slot, so the same booking succeeds again |
| Appointments.OtherStatusKeepsSlotClosed | backend/src/main/java/com/fpt/hivtreatment/service/impl/AppointmentServiceImpl.java:122-130 | any status other than cancelled leaves the slot taken |
| Appointments.CreateAppointment | backend/src/main/java/com/fpt/hivtreatment/service/impl/AppointmentServiceImpl.java:46-111 | creation fails exactly when a booking check fails, and then changes nothing; otherwise the appointment is stored with status "Chờ xác nhận", the request's fields and the looked-up patient, the slot becomes unavailable, and the response is that of the stored row |
| Appointments.SlotsAfterStatus | backend/src/main/java/com/fpt/hivtreatment/service/impl/AppointmentServiceImpl.java:124-130 | a cancelled status makes the slot available; any other status leaves the slot table unchanged |
| Appointments.UpdateStatus | backend/src/main/java/com/fpt/hivtreatment/service/impl/AppointmentServiceImpl.java:113-134 | an unknown appointment is not found and nothing changes; otherwise the status is set, a cancellation frees the slot, and the response is that of the stored row |
| Appointments.ReasonAfter | backend/src/main/java/com/fpt/hivtreatment/service/impl/AppointmentServiceImpl.java:277-281 | the cancellation reason changes only when the status is cancelled and a non-empty reason is given, and then it becomes that reason |
| Appointments.UpdateAppointmentStatus | backend/src/main/java/com/fpt/hivtreatment/service/impl/AppointmentServiceImpl.java:263-297 | as the status update, and the cancellation reason is replaced only on cancellation with a non-empty reason |
| Appointments.ApplyLimit | backend/src/main/java/com/fpt/hivtreatment/service/impl/AppointmentServiceImpl.java:240-243 | the manager list is cut to its first `limit` entries when 0 < limit < its length, and is otherwise returned whole |
| Appointments.ApplyLimitIdempotent | backend/src/main/java/com/fpt/hivtreatment/service/impl/AppointmentServiceImpl.java:240-243 | applying the limit twice is the same as applying it once |
| DoctorSchedules.ScheduleDateOf | backend/src/main/java/com/fpt/hivtreatment/dto/DoctorScheduleDTO.java:36-47 | the typed date wins; without it a non-empty text date is parsed, and a missing, empty or malformed text gives null |
| DoctorSchedules.ScheduleDateFromText | backend/src/main/java/com/fpt/hivtreatment/dto/DoctorScheduleDTO.java:36-47 | a date sent only as "yyyy-MM-dd" text reads back as that date |
| DoctorSchedules.ScheduleDateTextExact | backend/src/main/java/com/fpt/hivtreatment/dto/DoctorScheduleDTO.java:38-40 | a date read from the text field is exactly the ISO form of the text, with a four-digit year |
| DoctorSchedules.MapToResponse | backend/src/main/java/com/fpt/hivtreatment/service/impl/DoctorScheduleServiceImpl.java:315-324 | the response carries the schedule's id, doctor, doctor name and date, and its shift's start and end |
| DoctorSchedules.MapToDto | backend/src/main/java/com/fpt/hivtreatment/service/impl/DoctorScheduleServiceImpl.java:327-338 | the DTO carries the schedule's id, doctor, name, date and shift times, is always marked available, and leaves the shift id and notes unset |
| DoctorSchedules.DtosOf | backend/src/main/java/com/fpt/hivtreatment/service/impl/DoctorScheduleServiceImpl.java:208-210 | each listed schedule becomes its DTO, in order |
| DoctorSchedules.TimeRangeError | backend/src/main/java/com/fpt/hivtreatment/service/impl/DoctorScheduleServiceImpl.java:51-54 | the time range passes exactly when both times are set and the start is not after the end; a reversed range is an illegal argument |
| DoctorSchedules.CreateScheduleError | backend/src/main/java/com/fpt/hivtreatment/service/impl/DoctorScheduleServiceImpl.java:40-61 | the checks of `createSchedule`: an unknown doctor is not found; creation passes exactly when the doctor and work shift 1 exist and the time range and date are valid |
| DoctorSchedules.CreateSchedule | backend/src/main/java/com/fpt/hivtreatment/service/impl/DoctorScheduleServiceImpl.java:39-66 | on success a schedule of the doctor on that date in work shift 1 is inserted and its response returned; on failure nothing changes |
| DoctorSchedules.CreateDoctorScheduleError | backend/src/main/java/com/fpt/hivtreatment/service/impl/DoctorScheduleServiceImpl.java:111-176 | creation passes exactly when the doctor and work shift exist, the date is readable and the doctor has no schedule that day; with both ids given every failure is an illegal argument |
| DoctorSchedules.CreateDoctorSchedule | backend/src/main/java/com/fpt/hivtreatment/service/impl/DoctorScheduleServiceImpl.java:111-176 | a second schedule for a doctor on one day is refused, so one schedule per doctor per day is kept; on success the row with the date, shift and notes is inserted and its DTO returned |
| DoctorSchedules.SecondScheduleRejected | backend/src/main/java/com/fpt/hivtreatment/service/impl/DoctorScheduleServiceImpl.java:145-155 | after one schedule is created, another for the same doctor and date is refused |
| DoctorSchedules.FilterOf | backend/src/main/java/com/fpt/hivtreatment/service/impl/DoctorScheduleServiceImpl.java:183-206 | the filter selection: an unknown given doctor is not found, a malformed given date fails to parse; otherwise the filter matches the given doctor and/or date, and everything when neither is given |
| DoctorSchedules.GetDoctorSchedules | backend/src/main/java/com/fpt/hivtreatment/service/impl/DoctorScheduleServiceImpl.java:178-211 | a negative page or a size below 1 is refused; otherwise every schedule matching the filter is listed as its DTO (the page request is built but not applied) |
| DoctorSchedules.CountDoctorSchedules | backend/src/main/java/com/fpt/hivtreatment/service/impl/DoctorScheduleServiceImpl.java:231-257 | the count fails exactly when the filter does, and is the number of schedules matching the filter |
| DoctorSchedules.CountIsListLength | backend/src/main/java/com/fpt/hivtreatment/service/impl/DoctorScheduleServiceImpl.java:178-257 | for a valid page request the count agrees with the length of the list, with the same failures |
| DoctorSchedules.Rescheduled | backend/src/main/java/com/fpt/hivtreatment/service/impl/DoctorScheduleServiceImpl.java:282-284 | an update sets the schedule's date and work shift 1 and keeps its doctor and notes |
| DoctorSchedules.UpdateError | backend/src/main/java/com/fpt/hivtreatment/service/impl/DoctorScheduleServiceImpl.java:268-280 | an unknown schedule is not found; the update passes exactly when the schedule and work shift 1 exist and the time range and date are valid |
| DoctorSchedules.UpdateDoctorSchedule | backend/src/main/java/com/fpt/hivtreatment/service/impl/DoctorScheduleServiceImpl.java:267-288 | on success the schedule is rescheduled and its DTO returned; on failure nothing changes |
| DoctorSchedules.UpdateMayDuplicateDay | backend/src/main/java/com/fpt/hivtreatment/service/impl/DoctorScheduleServiceImpl.java:267-288 | the update does not apply the one-schedule-per-day rule: moving a schedule onto a day the doctor already works yields two schedules that day |
| DoctorSchedules.DeleteDoctorSchedule | backend/src/main/java/com/fpt/hivtreatment/service/impl/DoctorScheduleServiceImpl.java:290-312 | an unknown schedule is not found; a schedule with booked slots is refused by the appointments' foreign key (DataIntegrityViolationException); otherwise its slots and then the schedule are deleted, and no slot refers to it any more |
| Payments.TestTypeOf | backend/src/main/java/com/fpt/hivtreatment/model/entity/PaymentOrder.java:46-63 | a test type is found exactly when the order is present and its test type is stored, and it is that stored type |
| Payments.ServiceName | backend/src/main/java/com/fpt/hivtreatment/model/entity/PaymentOrder.java:46-51 | the linked order's test-type name, or "Dịch vụ xét nghiệm" when the order or its test type is missing |
| Payments.Amount | backend/src/main/java/com/fpt/hivtreatment/model/entity/PaymentOrder.java:58-63 | the linked order's test-type price, or zero when the order or its test type is missing |
| Payments.NewPayment | backend/src/main/java/com/fpt/hivtreatment/service/impl/PaymentServiceImpl.java:72-76 | a built payment carries the patient and total, status "Chờ thanh toán", no invoice generated, and no payment date, method or transaction fields (also backend/src/main/java/com/fpt/hivtreatment/model/entity/Payment.java:77-79) |
| Payments.PaymentOrderEntity.constructor | backend/src/main/java/com/fpt/hivtreatment/model/entity/PaymentOrder.java:27-35 | a new payment order refers to its lab order and to no payment yet |
| Payments.PaymentEntity.constructor | backend/src/main/java/com/fpt/hivtreatment/model/entity/Payment.java:85-87 | a payment made with the no-argument constructor starts with an empty set of payment orders |
| Payments.PaymentEntity.Built | backend/src/main/java/com/fpt/hivtreatment/model/entity/Payment.java:85-87 | a payment made by the builder has a null set of payment orders, because the initializer is not a builder default |
| Payments.PaymentEntity.AddPaymentOrder | backend/src/main/java/com/fpt/hivtreatment/model/entity/Payment.java:90-93 | adds the order to the set and points the order back at this payment; a null set throws and changes nothing; every order in the set still points back at this payment |
| Payments.PaymentEntity.RemovePaymentOrder | backend/src/main/java/com/fpt/hivtreatment/model/entity/Payment.java:96-99 | removes the order from the set and clears its back-link; a null set throws and changes nothing; every order left still points back at this payment |
| Payments.PaymentEntity.LabTestOrderIds | backend/src/main/java/com/fpt/hivtreatment/model/entity/Payment.java:102-109 | a null or empty set gives no ids; otherwise exactly one lab-order id per payment order |
| Payments.IdsOf | backend/src/main/java/com/fpt/hivtreatment/model/entity/Payment.java:106-108 | one id per payment order: the count matches, every order's id is present, and every id comes from an order |
| Payments.TotalOfAppend | backend/src/main/java/com/fpt/hivtreatment/service/impl/PaymentServiceImpl.java:204-214 | the total of two order lists in a row is the sum of their totals |
| Payments.TotalOfNonNegative | backend/src/main/java/com/fpt/hivtreatment/service/impl/PaymentServiceImpl.java:204-214 | with non-negative prices the total is never negative |
| Payments.TotalOfFrame | backend/src/main/java/com/fpt/hivtreatment/service/impl/PaymentServiceImpl.java:204-214 | the total depends only on the orders' test types, so a status change does not alter it |
| Payments.CalculateTotalAmount | backend/src/main/java/com/fpt/hivtreatment/service/impl/PaymentServiceImpl.java:204-214 | the loop's sum is the sum of the test-type prices of the orders `findAllById` finds, in key order |
| Payments.Moved | backend/src/main/java/com/fpt/hivtreatment/service/impl/PaymentServiceImpl.java:100-102 | a status move keeps the same order keys; it sets exactly the listed orders whose status qualifies to the new status and leaves every other order as it was (also backend/src/main/java/com/fpt/hivtreatment/service/impl/PaymentServiceImpl.java:145-152, backend/src/main/java/com/fpt/hivtreatment/service/impl/PaymentServiceImpl.java:356-370) |
| Payments.MovedSnoc | backend/src/main/java/com/fpt/hivtreatment/service/impl/PaymentServiceImpl.java:145-152 | moving the orders one at a time, in list order, gives the same result as moving them all at once |
| Payments.MoveOrders | backend/src/main/java/com/fpt/hivtreatment/service/impl/PaymentServiceImpl.java:145-152 | the loop leaves the lab orders in exactly the moved state (also backend/src/main/java/com/fpt/hivtreatment/service/impl/PaymentServiceImpl.java:356-370) |
| Payments.MovedKeepsLinks | backend/src/main/java/com/fpt/hivtreatment/model/entity/PaymentOrder.java:27-35 | a status move keeps every payment-order link pointing at a stored payment and a stored order, and keeps each order's test type and patient stored |
| Payments.Links | backend/src/main/java/com/fpt/hivtreatment/service/impl/PaymentServiceImpl.java:91-98 | one new payment-order row per found order, in order, each linking the payment to that order |
| Payments.CreatePaymentError | backend/src/main/java/com/fpt/hivtreatment/service/impl/PaymentServiceImpl.java:47-65 | the checks in order: an unknown patient is not found; a null or empty id list is an illegal argument; otherwise it succeeds exactly when no order is already linked to a payment, every order exists and no id repeats (also backend/src/main/java/com/fpt/hivtreatment/service/impl/PaymentServiceImpl.java:83-89) |
| Payments.CreatePaymentErrorAsWritten | backend/src/main/java/com/fpt/hivtreatment/service/impl/PaymentServiceImpl.java:44 | the code as written: the opening log statement reads the list's size, so a null list throws a null-pointer error; on a non-null list it agrees with the corrected checks |
| Payments.NullOrderListFinding | backend/src/main/java/com/fpt/hivtreatment/service/impl/PaymentServiceImpl.java:44 | for a known patient and a null list the code as written throws a null-pointer error where the evident intent is the "At least one lab test order ID is required" illegal argument (also backend/src/main/java/com/fpt/hivtreatment/service/impl/PaymentServiceImpl.java:54-57) |
| Payments.CreatePayment | backend/src/main/java/com/fpt/hivtreatment/service/impl/PaymentServiceImpl.java:42-111 | fails exactly when a check fails, and then leaves every table unchanged; on success it inserts the payment with the total of the found orders, moves those orders to "Chờ lấy mẫu" and links each of them once, none of them having been linked before; the link invariants are kept, and a link table that linked each order at most once still does |
| Payments.SavePayment | backend/src/main/java/com/fpt/hivtreatment/service/impl/PaymentServiceImpl.java:79-106 | saves the payment under the next key, moves the found orders and adds one link per found order, keeping every link pointing at stored rows |
| Payments.NewLinksKeepPaidOnce | backend/src/main/java/com/fpt/hivtreatment/service/impl/PaymentServiceImpl.java:59-65 | linking distinct orders that were not linked before keeps every order linked at most once (also backend/src/main/java/com/fpt/hivtreatment/service/impl/PaymentServiceImpl.java:106) |
| Payments.NewLinkRow | backend/src/main/java/com/fpt/hivtreatment/service/impl/PaymentServiceImpl.java:106 | after the batch save, a link row is either an old row unchanged or a new row for one of the found orders, which no old row links |
| Payments.LinkedOrders | backend/src/main/java/com/fpt/hivtreatment/service/impl/PaymentServiceImpl.java:143 | an order is listed exactly when some payment-order row links it to the payment (also backend/src/main/java/com/fpt/hivtreatment/service/impl/PaymentServiceImpl.java:353) |
| Payments.LinkedOrdersStored | backend/src/main/java/com/fpt/hivtreatment/service/impl/PaymentServiceImpl.java:143-146 | every order linked to the payment is a stored lab order |
| Payments.OrdersAfterStatus | backend/src/main/java/com/fpt/hivtreatment/service/impl/PaymentServiceImpl.java:140-153 | a status other than "Đã thanh toán" leaves every lab order alone; "Đã thanh toán" moves the payment's linked orders that await payment to "Chờ lấy mẫu" |
| Payments.OrdersAfterPaidMoveOnlyAwaiting | backend/src/main/java/com/fpt/hivtreatment/service/impl/PaymentServiceImpl.java:145-152 | after marking a payment paid, an order has changed exactly when it was linked to that payment and awaited payment, and then it awaits a sample |
| Payments.UpdatePaymentStatus | backend/src/main/java/com/fpt/hivtreatment/service/impl/PaymentServiceImpl.java:129-156 | an unknown payment is not found and changes nothing; otherwise the payment gets the new status and the lab orders become the state the status implies; the link invariants hold |
| Payments.WithTransaction | backend/src/main/java/com/fpt/hivtreatment/service/impl/PaymentServiceImpl.java:167-197 | each of the eight transaction fields takes the map's value when its key is present and keeps its old value otherwise; every other field is unchanged |
| Payments.WithTransactionIdempotent | backend/src/main/java/com/fpt/hivtreatment/service/impl/PaymentServiceImpl.java:167-197 | an empty map changes nothing, and applying the same data twice is the same as applying it once |
| Payments.UpdatePaymentTransaction | backend/src/main/java/com/fpt/hivtreatment/service/impl/PaymentServiceImpl.java:158-201 | an unknown payment is not found and changes nothing; otherwise only that payment changes, to its state with the transaction data applied |
| Payments.SumAmounts | backend/src/main/java/com/fpt/hivtreatment/service/impl/PaymentServiceImpl.java:319-321 | the reduction fails exactly when some entry has a null amount |
| Payments.MethodsTextShape | backend/src/main/java/com/fpt/hivtreatment/service/impl/PaymentServiceImpl.java:329-338 | one entry gives "method (amount)" alone, and each further entry adds ", " and its own text |
| Payments.BuildMethodsText | backend/src/main/java/com/fpt/hivtreatment/service/impl/PaymentServiceImpl.java:329-338 | the StringBuilder loop produces the entries' texts joined by ", ", in request order |
| Payments.ProcessError | backend/src/main/java/com/fpt/hivtreatment/service/impl/PaymentServiceImpl.java:302-326 | a missing payment id is an illegal argument, then a null or empty methods list is one too; otherwise it succeeds exactly when the payment exists, no amount is null and the amounts add up to at least the payment's total |
| Payments.ProcessErrorAsWritten | backend/src/main/java/com/fpt/hivtreatment/service/impl/PaymentServiceImpl.java:299-300 | the code as written: the opening log statement reads the methods list's size, so a null list throws a null-pointer error; on a non-null list it agrees with the corrected checks |
| Payments.NullMethodsFinding | backend/src/main/java/com/fpt/hivtreatment/service/impl/PaymentServiceImpl.java:299-300 | for a null methods list the code as written throws a null-pointer error where the evident intent is the "At least one payment method is required" illegal argument (also backend/src/main/java/com/fpt/hivtreatment/service/impl/PaymentServiceImpl.java:307-309) |
| Payments.Processed | backend/src/main/java/com/fpt/hivtreatment/service/impl/PaymentServiceImpl.java:340-347 | a processed payment is paid, dated now and carries the methods text; a given non-empty note replaces the notes; nothing else changes |
| Payments.ProcessPayment | backend/src/main/java/com/fpt/hivtreatment/service/impl/PaymentServiceImpl.java:296-373 | fails exactly when a check fails, and then changes nothing; otherwise the payment is processed and its linked orders that await payment move to "Chờ lấy mẫu"; the link invariants hold |
| PaymentController.Refusal | backend/src/main/java/com/fpt/hivtreatment/controller/PaymentController.java:58-78 | the endpoint's own checks in order: a missing patient id, then a null or empty order list, each with its fixed message; otherwise it proceeds exactly when the patient is stored and at least one of the ids names a stored order |
| PaymentController.CreatePayment | backend/src/main/java/com/fpt/hivtreatment/controller/PaymentController.java:52-125 | a refused request answers 400 with the check's message and changes nothing; otherwise it saves a payment with the notes, the creation time and the total of the found orders, moves the found orders that are new or awaiting payment to "Chờ thanh toán", and links every found order; the link invariants hold |
| PaymentController.ControllerSkipsPaidCheck | backend/src/main/java/com/fpt/hivtreatment/controller/PaymentController.java:58-78 | an order already linked to a payment passes the endpoint's checks, where the service would throw an illegal state (also backend/src/main/java/com/fpt/hivtreatment/service/impl/PaymentServiceImpl.java:59-65) |
| PaymentController.ControllerToleratesPartialMatch | backend/src/main/java/com/fpt/hivtreatment/controller/PaymentController.java:74-78 | an id list with one stored and one unknown order passes the endpoint's checks, where the service rejects it (also backend/src/main/java/com/fpt/hivtreatment/service/impl/PaymentServiceImpl.java:83-89) |
| PaymentController.UpdatePaymentStatus | backend/src/main/java/com/fpt/hivtreatment/controller/PaymentController.java:171-194 | a body without a status answers 400 "Status is required" and changes nothing; an unknown payment answers 500 with not found; otherwise the payment gets the status and the lab orders the state the service produces |
| PaymentController.StatusFor | backend/src/main/java/com/fpt/hivtreatment/controller/PaymentController.java:280-290 | a failure answers 400 exactly when it is an illegal argument, and 500 otherwise |
| PaymentController.ProcessPayment | backend/src/main/java/com/fpt/hivtreatment/controller/PaymentController.java:264-291 | the payment id comes from the path; a failed check answers with its status code and changes nothing; a success processes that payment and moves its orders awaiting payment to "Chờ lấy mẫu" |
| PaymentController.NullMethodsAnsweredAs | backend/src/main/java/com/fpt/hivtreatment/controller/PaymentController.java:280-290 | through this endpoint a null methods list is answered 500 by the service as written but 400 by the corrected service (also backend/src/main/java/com/fpt/hivtreatment/service/impl/PaymentServiceImpl.java:299-309) |
| LabOrders.KnownDoctor | backend/src/main/java/com/fpt/hivtreatment/service/impl/LabTestOrderServiceImpl.java:58-67 | the order gets a doctor exactly when a doctor id is given and names a stored user, and then it is that id |
| LabOrders.CreateLabTestOrder | backend/src/main/java/com/fpt/hivtreatment/service/impl/LabTestOrderServiceImpl.java:37-92 | an unknown test type or patient throws and changes nothing; otherwise one order is inserted under the next key, dated today, awaiting payment ("Chờ thanh toán"), with no expected result date, the known doctor, the record id and the notes; the table invariants hold |
| LabOrders.NewOrderAwaitsPayment | backend/src/main/java/com/fpt/hivtreatment/service/impl/LabTestOrderServiceImpl.java:77-87 | a new order neither awaits a sample nor has a result, and has no expected result date |
| LabOrders.PatientOrders | backend/src/main/java/com/fpt/hivtreatment/service/impl/LabTestOrderServiceImpl.java:97-104 | an unknown patient throws; otherwise the list holds exactly that patient's orders |
| LabOrders.PatientHivOrders | backend/src/main/java/com/fpt/hivtreatment/service/impl/LabTestOrderServiceImpl.java:109-116 | an unknown patient throws; otherwise the list holds exactly that patient's orders whose test type is stored and in the "HIV" group (also backend/src/main/java/com/fpt/hivtreatment/repository/LabTestOrderRepository.java:44-48) |
| LabOrders.HivOrdersArePatientOrders | backend/src/main/java/com/fpt/hivtreatment/repository/LabTestOrderRepository.java:44-48 | the HIV list fails exactly when the patient list fails, and holds exactly the patient's orders in the HIV group |
| LabOrders.OrdersByMedicalRecord | backend/src/main/java/com/fpt/hivtreatment/service/impl/LabTestOrderServiceImpl.java:121-142 | a null record id throws; otherwise the list holds exactly the orders of that record |
| LabOrders.OrdersByStatus | backend/src/main/java/com/fpt/hivtreatment/service/impl/LabTestOrderServiceImpl.java:171-174 | the list holds exactly the orders with that status |
| LabOrders.CountOrdersByStatus | backend/src/main/java/com/fpt/hivtreatment/service/impl/LabTestOrderServiceImpl.java:179-182 | for a given status the count is the length of the status list; a null status counts nothing, since `= NULL` matches no row (also backend/src/main/java/com/fpt/hivtreatment/repository/LabTestOrderRepository.java:53-54) |
| LabOrders.NullStatusCountDisagrees | backend/src/main/java/com/fpt/hivtreatment/repository/LabTestOrderRepository.java:53-54 | for a null status the list can hold an order while the count is zero (also backend/src/main/java/com/fpt/hivtreatment/repository/LabTestOrderRepository.java:34) |
| LabOrders.UpdateOrderStatus | backend/src/main/java/com/fpt/hivtreatment/service/impl/LabTestOrderServiceImpl.java:147-158 | an unknown order throws and changes nothing; otherwise that order, and only it, gets exactly the given status |
| LabOrders.StatusCountsAfterUpdate | backend/src/main/java/com/fpt/hivtreatment/service/impl/LabTestOrderServiceImpl.java:147-158 | moving an order from one status to another lowers the old status's count by one and raises the new one's by one (also backend/src/main/java/com/fpt/hivtreatment/service/impl/LabTestOrderServiceImpl.java:179-182) |
| LabOrders.NotesAfter | backend/src/main/java/com/fpt/hivtreatment/service/impl/LabTestOrderServiceImpl.java:201-204 | notes that are given and not blank after trimming replace the current notes; otherwise the current notes stay |
| LabOrders.UpdateExpectedResultDate | backend/src/main/java/com/fpt/hivtreatment/service/impl/LabTestOrderServiceImpl.java:187-210 | an unknown order, a null date or a text that is not an ISO date throws and changes nothing; otherwise only that order changes: it is due at 17:00 on the parsed day, which prints back as the given text, and its notes follow the notes rule |
| LabOrders.ExpectedDateIdempotent | backend/src/main/java/com/fpt/hivtreatment/service/impl/LabTestOrderServiceImpl.java:197-204 | setting the expected date twice with the same arguments gives the same order as setting it once |
| LabResults.ResultOfOrder | backend/src/main/java/com/fpt/hivtreatment/service/impl/LabTestResultServiceImpl.java:83-86 | an order has no result exactly when no stored result names it; a found result names the order, and with one result per order it is the only one (also backend/src/main/java/com/fpt/hivtreatment/repository/LabTestResultRepository.java:29) |
| LabResults.UpsertError | backend/src/main/java/com/fpt/hivtreatment/service/impl/LabTestResultServiceImpl.java:243-257 | the checks in order: an unknown order throws; a null order status fails the `equals` call; an order awaiting its sample ("Chờ lấy mẫu") is refused; an unknown entering user is refused; null result data fails at the NOT NULL column; otherwise the entry is accepted (also backend/src/main/java/com/fpt/hivtreatment/service/impl/LabTestResultServiceImpl.java:187-200) |
| LabResults.UpsertedHolds | backend/src/main/java/com/fpt/hivtreatment/service/impl/LabTestResultServiceImpl.java:259-283 | after an entry the order's result is the saved row, that row holds exactly what the entry set, every other result is unchanged, and results stay one per order |
| LabResults.UpdatedHolds | backend/src/main/java/com/fpt/hivtreatment/service/impl/LabTestResultServiceImpl.java:263-266 | writing the entry into the order's existing result keeps one result per order, keeps every row's order, and the row holds the entry (also backend/src/main/java/com/fpt/hivtreatment/service/impl/LabTestResultServiceImpl.java:274-280) |
| LabResults.InsertedHolds | backend/src/main/java/com/fpt/hivtreatment/service/impl/LabTestResultServiceImpl.java:267-280 | a new result for an order that had none keeps one result per order, holds the entry and leaves every other row alone |
| LabResults.CreateOrUpdate | backend/src/main/java/com/fpt/hivtreatment/service/impl/LabTestResultServiceImpl.java:243-283 | fails exactly when a check fails, and then changes nothing; otherwise the order's result is updated in place, or a new one is inserted, and the table stays one result per order with every link stored |
| LabResults.ResultJson | backend/src/main/java/com/fpt/hivtreatment/service/impl/LabTestResultServiceImpl.java:217-220 | the result text is a JSON object that starts with `{"value":"` and ends with `"}` |
| LabResults.ResultJsonAmbiguous | backend/src/main/java/com/fpt/hivtreatment/service/impl/LabTestResultServiceImpl.java:217-220 | the JSON is built by formatting without escaping: two different value/unit pairs can give exactly the same text |
| LabResults.CreateOrUpdateFromParts | backend/src/main/java/com/fpt/hivtreatment/service/impl/LabTestResultServiceImpl.java:174-232 | the overload with parts stores the formatted JSON as the result data, with the same checks and the same update-or-insert as the JSON overload |
| LabResults.CreateOrUpdateLabTestResult | backend/src/main/java/com/fpt/hivtreatment/service/impl/LabTestResultServiceImpl.java:234-284 | fails exactly when a check fails, and then changes nothing; otherwise the order's result is updated or created with the given data, summary, notes, path and user |
| LabResults.UpdateLabTestResult | backend/src/main/java/com/fpt/hivtreatment/service/impl/LabTestResultServiceImpl.java:55-76 | an unknown result throws; null data fails at the NOT NULL column; both leave the table unchanged; otherwise only that result changes: data, summary and notes are replaced, the path only by a non-null one, and the update time is now |
| LabResults.UpdateAttachmentsPath | backend/src/main/java/com/fpt/hivtreatment/service/impl/LabTestResultServiceImpl.java:114-126 | an unknown result throws and changes nothing; otherwise only that result's path (a null one included) and update time change |
| LabResults.DeleteLabTestResult | backend/src/main/java/com/fpt/hivtreatment/service/impl/LabTestResultServiceImpl.java:128-136 | the result's record associations are deleted, then the result itself; nothing else changes and every remaining association still names stored rows |
| LabResults.DeleteAssociationsOf | backend/src/main/java/com/fpt/hivtreatment/service/impl/LabTestResultServiceImpl.java:130-132 | the loop deletes exactly the associations of that result |
| LabResults.AssociateWithMedicalRecord | backend/src/main/java/com/fpt/hivtreatment/service/impl/LabTestResultServiceImpl.java:138-167 | an unknown result, an unknown record or an existing association throws and changes nothing; otherwise exactly one association with the interpretation is added |
| LabResults.UpdateOrderStatus | backend/src/main/java/com/fpt/hivtreatment/service/impl/LabTestResultServiceImpl.java:286-298 | an unknown order throws and changes nothing; otherwise only that order's status changes, to the given one |
| LabResults.LaterTransitive | backend/src/main/java/com/fpt/hivtreatment/repository/LabTestResultRepository.java:59-60 | the descending result-date order, with null dates last, is transitive |
| LabResults.Latest | backend/src/main/java/com/fpt/hivtreatment/service/impl/LabTestResultServiceImpl.java:108-112 | the first of a list in descending result-date order: none exactly for an empty list, otherwise a listed result that no other listed result comes before |
| LabResults.FindLatest | backend/src/main/java/com/fpt/hivtreatment/service/impl/LabTestResultServiceImpl.java:108-112 | empty exactly when the patient has no result of the test type; otherwise one of those results, and no other of them has a later result date (also backend/src/main/java/com/fpt/hivtreatment/repository/LabTestResultRepository.java:59-60) |
| LabResults.ResultListMembers | backend/src/main/java/com/fpt/hivtreatment/service/impl/LabTestResultServiceImpl.java:312-327 | what one order adds is exactly its result, when it has one |
| LabResults.CompleteOfMembers | backend/src/main/java/com/fpt/hivtreatment/service/impl/LabTestResultServiceImpl.java:311-328 | the collected list holds exactly the results of the listed orders |
| LabResults.FindCompleteResultsWithDetails | backend/src/main/java/com/fpt/hivtreatment/service/impl/LabTestResultServiceImpl.java:300-331 | the loop collects, in order, the result of each order with status "Có kết quả" that has one |
| LabResults.CompleteOfSnoc | backend/src/main/java/com/fpt/hivtreatment/service/impl/LabTestResultServiceImpl.java:311-328 | each loop step appends the current order's result to what was collected |
| LabResults.CompleteResultsExactly | backend/src/main/java/com/fpt/hivtreatment/service/impl/LabTestResultServiceImpl.java:300-331 | the complete results are exactly the stored results whose order is stored and has status "Có kết quả" |
| RecordLabResults.FindPair | backend/src/main/java/com/fpt/hivtreatment/service/impl/MedicalRecordLabResultServiceImpl.java:68-73 | the pair is found exactly when some association joins that record and that result; the one found does, and with unique pairs it is the only one |
| RecordLabResults.CreateError | backend/src/main/java/com/fpt/hivtreatment/service/impl/MedicalRecordLabResultServiceImpl.java:34-46 | every failure is a runtime exception, and creation is allowed exactly when the record and the result are stored and the pair is not yet associated |
| RecordLabResults.InsertKeepsUniquePairs | backend/src/main/java/com/fpt/hivtreatment/service/impl/MedicalRecordLabResultServiceImpl.java:42-46 | adding a pair that was not associated keeps every pair associated at most once |
| RecordLabResults.CreateAssociation | backend/src/main/java/com/fpt/hivtreatment/service/impl/MedicalRecordLabResultServiceImpl.java:31-56 | fails exactly when a check fails, and then changes nothing; otherwise exactly one association with the interpretation and the creation time is added, and it is the one the pair now finds |
| RecordLabResults.SecondCreateRefused | backend/src/main/java/com/fpt/hivtreatment/service/impl/MedicalRecordLabResultServiceImpl.java:42-46 | once a pair is associated, creating it again is refused |
| RecordLabResults.UpdateInterpretation | backend/src/main/java/com/fpt/hivtreatment/service/impl/MedicalRecordLabResultServiceImpl.java:75-89 | a pair that is not associated throws and changes nothing; otherwise only its association's interpretation changes |
| RecordLabResults.DeleteAssociation | backend/src/main/java/com/fpt/hivtreatment/service/impl/MedicalRecordLabResultServiceImpl.java:101-112 | a pair that is not associated throws and changes nothing; otherwise exactly one row, the pair's association, is deleted |
| RecordLabResults.DeleteAllByMedicalRecordId | backend/src/main/java/com/fpt/hivtreatment/service/impl/MedicalRecordLabResultServiceImpl.java:114-119 | every association of the record is deleted and every other association stays as it was |
| RecordLabResults.DeleteAllByLabTestResultId | backend/src/main/java/com/fpt/hivtreatment/service/impl/MedicalRecordLabResultServiceImpl.java:121-126 | every association of the result is deleted and every other association stays as it was |
| RecordLabResults.AssociationsOfRecord | backend/src/main/java/com/fpt/hivtreatment/service/impl/MedicalRecordLabResultServiceImpl.java:58-61 | the list holds exactly the associations of the record |
| RecordLabResults.AssociationsOfResult | backend/src/main/java/com/fpt/hivtreatment/service/impl/MedicalRecordLabResultServiceImpl.java:63-66 | the list holds exactly the associations of the result |
| RecordLabResults.RecordResultsDistinct | backend/src/main/java/com/fpt/hivtreatment/service/impl/MedicalRecordLabResultServiceImpl.java:58-61 | a record's associations name distinct results |
| MedicalRecords.ToDto | backend/src/main/java/com/fpt/hivtreatment/service/impl/MedicalRecordServiceImpl.java:253-286 | the DTO carries the record's id, patient and clinical fields and timestamps, and the patient's name; the doctor's id and the protocol's id are null exactly when the record has no doctor or no protocol, and their names are then null too; otherwise the names are the stored doctor's and protocol's names |
| MedicalRecords.DtosOf | backend/src/main/java/com/fpt/hivtreatment/service/impl/MedicalRecordServiceImpl.java:164-167 | one DTO per key, in key order, each the mapping of that record |
| MedicalRecords.CreateError | backend/src/main/java/com/fpt/hivtreatment/service/impl/MedicalRecordServiceImpl.java:41-60 | an unknown patient is not found; creation succeeds exactly when the patient, a given doctor and a given protocol are stored and the visit date is set; a missing visit date fails at the NOT NULL column (also backend/src/main/java/com/fpt/hivtreatment/model/entity/MedicalRecord.java:37) |
| MedicalRecords.CreatedReadsBack | backend/src/main/java/com/fpt/hivtreatment/service/impl/MedicalRecordServiceImpl.java:62-87 | a record created from a DTO is linked to stored rows and maps back to the DTO's patient, doctor, protocol and clinical fields, with both timestamps now |
| MedicalRecords.CreateMedicalRecord | backend/src/main/java/com/fpt/hivtreatment/service/impl/MedicalRecordServiceImpl.java:38-88 | fails exactly when a check fails, and then changes nothing; otherwise exactly one record is inserted and the answer is its mapping |
| MedicalRecords.UpdateError | backend/src/main/java/com/fpt/hivtreatment/service/impl/MedicalRecordServiceImpl.java:93-119 | an unknown record is not found; the doctor is looked up only when a different one is given, and the protocol likewise; a missing visit date fails at the NOT NULL column; no other failure occurs (also backend/src/main/java/com/fpt/hivtreatment/model/entity/MedicalRecord.java:37) |
| MedicalRecords.UpdatedRecord | backend/src/main/java/com/fpt/hivtreatment/service/impl/MedicalRecordServiceImpl.java:97-139 | an accepted update keeps the record linked, replaces all clinical fields, keeps the patient and creation time, and keeps the doctor and protocol unless new ones are given |
| MedicalRecords.SameDoctorNoLookup | backend/src/main/java/com/fpt/hivtreatment/service/impl/MedicalRecordServiceImpl.java:98-106 | when the doctor is not replaced, the users table does not affect whether the update succeeds |
| MedicalRecords.UpdateIdempotent | backend/src/main/java/com/fpt/hivtreatment/service/impl/MedicalRecordServiceImpl.java:97-139 | applying the same update twice is the same as applying it once at the later time |
| MedicalRecords.UpdateMedicalRecord | backend/src/main/java/com/fpt/hivtreatment/service/impl/MedicalRecordServiceImpl.java:90-143 | fails exactly when a check fails, and then changes nothing; otherwise only that record changes, to its updated form, and the answer is its mapping |
| MedicalRecords.GetMedicalRecordById | backend/src/main/java/com/fpt/hivtreatment/service/impl/MedicalRecordServiceImpl.java:145-152 | an unknown id is not found; otherwise the answer is the mapping of that record |
| MedicalRecords.UpdateMedicalRecordStatus | backend/src/main/java/com/fpt/hivtreatment/service/impl/MedicalRecordServiceImpl.java:232-243 | an unknown id is not found and changes nothing; otherwise only that record's status and update time change, and the answer is its mapping |
| MedicalRecords.StatusSet | backend/src/main/java/com/fpt/hivtreatment/service/impl/MedicalRecordServiceImpl.java:239 | only the record status (to the given one) and the update time change |
| MedicalRecords.CountMedicalRecordsByStatus | backend/src/main/java/com/fpt/hivtreatment/service/impl/MedicalRecordServiceImpl.java:245-248 | the count is the number of records with that status; a null status counts nothing (also backend/src/main/java/com/fpt/hivtreatment/repository/MedicalRecordRepository.java:42-43) |
| MedicalRecords.StatusCountsAfterSet | backend/src/main/java/com/fpt/hivtreatment/service/impl/MedicalRecordServiceImpl.java:239-240 | setting a record to a new status raises that status's count by one and leaves the count of a third status alone |
| MedicalRecords.NotOlderTotal | backend/src/main/java/com/fpt/hivtreatment/service/impl/MedicalRecordServiceImpl.java:162 | any two visit dates are ordered by the descending sort, with null dates last |
| MedicalRecords.NotOlderTransitive | backend/src/main/java/com/fpt/hivtreatment/service/impl/MedicalRecordServiceImpl.java:162 | the descending visit-date order is transitive |
| MedicalRecords.InsertByVisit | backend/src/main/java/com/fpt/hivtreatment/service/impl/MedicalRecordServiceImpl.java:162 | inserting a key keeps every key and adds that one, as a permutation |
| MedicalRecords.InsertKeepsNewestFirst | backend/src/main/java/com/fpt/hivtreatment/service/impl/MedicalRecordServiceImpl.java:162 | inserting a key into a newest-first list keeps it newest-first |
| MedicalRecords.ByVisitDesc | backend/src/main/java/com/fpt/hivtreatment/service/impl/MedicalRecordServiceImpl.java:162 | the sort is a permutation of its keys |
| MedicalRecords.ByVisitDescSorted | backend/src/main/java/com/fpt/hivtreatment/service/impl/MedicalRecordServiceImpl.java:162 | the sorted keys are newest-first |
| MedicalRecords.SortedMatches | backend/src/main/java/com/fpt/hivtreatment/service/impl/MedicalRecordServiceImpl.java:160-162 | the matching records, newest visit first: exactly the records the filter selects, as many as it counts (also backend/src/main/java/com/fpt/hivtreatment/service/impl/MedicalRecordServiceImpl.java:184-186) |
| MedicalRecords.PageKeys | backend/src/main/java/com/fpt/hivtreatment/service/impl/MedicalRecordServiceImpl.java:160-162 | a negative page or a size below one is an illegal argument; otherwise at most `size` stored keys |
| MedicalRecords.SliceNewestFirst | backend/src/main/java/com/fpt/hivtreatment/service/impl/MedicalRecordServiceImpl.java:160-162 | a slice of a newest-first list is newest-first |
| MedicalRecords.PageNewestFirst | backend/src/main/java/com/fpt/hivtreatment/service/impl/MedicalRecordServiceImpl.java:160-162 | a page of a newest-first list is newest-first |
| MedicalRecords.FirstPageWhole | backend/src/main/java/com/fpt/hivtreatment/service/impl/MedicalRecordServiceImpl.java:160-162 | when everything fits on one page, page 0 is the whole list |
| MedicalRecords.PageKeysContents | backend/src/main/java/com/fpt/hivtreatment/service/impl/MedicalRecordServiceImpl.java:160-162 | every key on a page matches the filter, the page is newest-first, and page 0 holds every match when they all fit |
| MedicalRecords.PageFor | backend/src/main/java/com/fpt/hivtreatment/service/impl/MedicalRecordServiceImpl.java:160-175 | an invalid page or size is refused; otherwise the answer holds the page number, the total count, the page count for that size and the mappings of the page's records |
| MedicalRecords.DtosFollowKeys | backend/src/main/java/com/fpt/hivtreatment/service/impl/MedicalRecordServiceImpl.java:164-167 | the DTOs of newest-first keys are newest-first, and every key has its DTO |
| MedicalRecords.PageContents | backend/src/main/java/com/fpt/hivtreatment/service/impl/MedicalRecordServiceImpl.java:160-175 | a page has at most `size` records, all matching and newest visit first; page 0 holds every match when they all fit |
| MedicalRecords.GetMedicalRecordsByPatient | backend/src/main/java/com/fpt/hivtreatment/service/impl/MedicalRecordServiceImpl.java:154-176 | an unknown patient is not found; otherwise the answer is the page of that patient's records |
| MedicalRecords.GetMedicalRecordsByDoctor | backend/src/main/java/com/fpt/hivtreatment/service/impl/MedicalRecordServiceImpl.java:178-200 | an unknown doctor is not found; otherwise the answer is the page of that doctor's records |
| MedicalRecords.PrescriptionsOf | backend/src/main/java/com/fpt/hivtreatment/model/entity/MedicalRecord.java:99-100 | exactly the prescriptions of the record |
| MedicalRecords.ItemsOf | backend/src/main/java/com/fpt/hivtreatment/model/entity/Prescription.java:73-74 | exactly the items of those prescriptions |
| MedicalRecords.DeleteError | backend/src/main/java/com/fpt/hivtreatment/service/impl/MedicalRecordServiceImpl.java:224-229 | an unknown record is not found; a record with a lab-result association fails at the foreign key; otherwise the delete proceeds (also backend/src/main/java/com/fpt/hivtreatment/model/entity/MedicalRecordLabResult.java:24-25) |
| MedicalRecords.CascadeKeepsItemLinks | backend/src/main/java/com/fpt/hivtreatment/model/entity/Prescription.java:73-74 | after the cascade every remaining item names a remaining prescription and every remaining medication reminder names a remaining item (also backend/src/main/java/com/fpt/hivtreatment/model/entity/PrescriptionItem.java:75-76) |
| MedicalRecords.CascadeKeepsRecordLinks | backend/src/main/java/com/fpt/hivtreatment/model/entity/MedicalRecord.java:99-103 | after the cascade every remaining prescription, reminder and lab association names remaining rows (also backend/src/main/java/com/fpt/hivtreatment/model/entity/Prescription.java:76-77) |
| MedicalRecords.CascadeKeepsLinks | backend/src/main/java/com/fpt/hivtreatment/model/entity/MedicalRecord.java:99-103 | the cascade keeps every link between records, prescriptions, items, reminders and lab associations pointing at stored rows |
| MedicalRecords.DeleteMedicalRecord | backend/src/main/java/com/fpt/hivtreatment/service/impl/MedicalRecordServiceImpl.java:222-230 | fails exactly when a check fails, and then changes nothing; otherwise it deletes the record, its prescriptions, their items, the items' medication reminders, and the reminders of the record or its prescriptions, keeping every link stored (also backend/src/main/java/com/fpt/hivtreatment/model/entity/MedicalRecord.java:99-103) |
| PrescriptionBatch.Get | backend/src/main/java/com/fpt/hivtreatment/controller/PrescriptionController.java:89-156 | a key reads as a value exactly when it is present and not JSON null, and then it is that value's text |
| PrescriptionBatch.TextOf | backend/src/main/java/com/fpt/hivtreatment/controller/PrescriptionController.java:111 | `get(key).toString()`: a missing or null value throws a null-pointer error; otherwise the value's text (also backend/src/main/java/com/fpt/hivtreatment/controller/PrescriptionController.java:154-155) |
| PrescriptionBatch.LongOf | backend/src/main/java/com/fpt/hivtreatment/controller/PrescriptionController.java:89 | `Long.valueOf(get(key).toString())`: a missing value throws a null-pointer error, text that is not a Java long a number-format error; otherwise the parsed number (also backend/src/main/java/com/fpt/hivtreatment/controller/PrescriptionController.java:101-102, backend/src/main/java/com/fpt/hivtreatment/controller/PrescriptionController.java:120) |
| PrescriptionBatch.IntOf | backend/src/main/java/com/fpt/hivtreatment/controller/PrescriptionController.java:128-131 | `Integer.valueOf(get(key).toString())`: a missing value throws a null-pointer error, text that is not a Java int a number-format error; otherwise the parsed number |
| PrescriptionBatch.MapAll | backend/src/main/java/com/fpt/hivtreatment/controller/PrescriptionController.java:88-89 | a conversion of every element that succeeds gives one result per element (also backend/src/main/java/com/fpt/hivtreatment/controller/PrescriptionController.java:118-162) |
| PrescriptionBatch.MapAllMeaning | backend/src/main/java/com/fpt/hivtreatment/controller/PrescriptionController.java:88-89 | a success holds each element's own result, in order; a failure is the error of the first element that fails, every earlier one succeeding (also backend/src/main/java/com/fpt/hivtreatment/controller/PrescriptionController.java:118-162) |
| PrescriptionBatch.MapAllFailure | backend/src/main/java/com/fpt/hivtreatment/controller/PrescriptionController.java:118-162 | when the elements before `i` convert and element `i` fails, the whole conversion fails with element `i`'s error |
| PrescriptionBatch.GroupKeys | backend/src/main/java/com/fpt/hivtreatment/controller/PrescriptionController.java:88-89 | reading the record ids of the batch gives one key per object |
| PrescriptionBatch.InsertSorted | backend/src/main/java/com/fpt/hivtreatment/controller/PrescriptionController.java:91 | inserting a key into an ascending list keeps it ascending and adds exactly that key |
| PrescriptionBatch.KeyOrder | backend/src/main/java/com/fpt/hivtreatment/controller/PrescriptionController.java:91 | the group keys in iteration order: ascending, and exactly the keys that occur |
| PrescriptionBatch.Members | backend/src/main/java/com/fpt/hivtreatment/controller/PrescriptionController.java:88-89 | a group holds only objects of the batch, at most all of them |
| PrescriptionBatch.MembersOfKey | backend/src/main/java/com/fpt/hivtreatment/controller/PrescriptionController.java:88-89 | every object belongs to the group of its own key |
| PrescriptionBatch.Groups | backend/src/main/java/com/fpt/hivtreatment/controller/PrescriptionController.java:88-89 | grouping fails exactly when a record id cannot be read, with that error; otherwise the groups of those keys |
| PrescriptionBatch.GroupsPartition | backend/src/main/java/com/fpt/hivtreatment/controller/PrescriptionController.java:88-93 | the groups come in ascending key order, none is empty, every object is in the group of its key, and a group exists exactly for each key that occurs |
| PrescriptionBatch.GroupCount | backend/src/main/java/com/fpt/hivtreatment/controller/PrescriptionController.java:88-91 | there are as many groups as distinct record ids |
| PrescriptionBatch.ProtocolOf | backend/src/main/java/com/fpt/hivtreatment/controller/PrescriptionController.java:104-106 | a missing, null or "null" protocol id gives no protocol; otherwise the id is parsed as a long, and a bad one throws |
| PrescriptionBatch.DateOf | backend/src/main/java/com/fpt/hivtreatment/controller/PrescriptionController.java:108-110 | a missing date throws a null-pointer error, text that is not an ISO date a parse error; otherwise the parsed date |
| PrescriptionBatch.Header | backend/src/main/java/com/fpt/hivtreatment/controller/PrescriptionController.java:99-112 | a header that is built has its record, patient, doctor and end date set |
| PrescriptionBatch.HeaderFromFirstObject | backend/src/main/java/com/fpt/hivtreatment/controller/PrescriptionController.java:96-112 | the header is built exactly when the first object's patient, doctor, protocol, date and status all read; otherwise the first of them that fails decides the error; a built header takes the group key as record, the end date 30 days after the start, and notes counting the group's objects |
| PrescriptionBatch.Frequency | backend/src/main/java/com/fpt/hivtreatment/controller/PrescriptionController.java:124-125 | the frequency text, or "1 lần/ngày" when it is missing or null |
| PrescriptionBatch.FrequencyDoses | backend/src/main/java/com/fpt/hivtreatment/controller/PrescriptionController.java:133-151 | the fallback doses: always one in the morning; one in the evening for "2 lần", "3 lần" or "4 lần"; one at noon for "3 lần" or "4 lần" without "2 lần"; one in the afternoon only for "4 lần" without the others |
| PrescriptionBatch.LacksFirstChar | backend/src/main/java/com/fpt/hivtreatment/controller/PrescriptionController.java:139-146 | a text without the first character of a pattern does not contain that pattern |
| PrescriptionBatch.DigitlessFrequencyMorningOnly | backend/src/main/java/com/fpt/hivtreatment/controller/PrescriptionController.java:133-151 | a frequency without the digits 2, 3 or 4 gives one morning dose only |
| PrescriptionBatch.DefaultFrequencyMorningOnly | backend/src/main/java/com/fpt/hivtreatment/controller/PrescriptionController.java:124-125 | the default frequency gives one morning dose only (also backend/src/main/java/com/fpt/hivtreatment/controller/PrescriptionController.java:133-151) |
| PrescriptionBatch.ExplicitDosesRead | backend/src/main/java/com/fpt/hivtreatment/controller/PrescriptionController.java:127-131 | the four explicit doses are read in order morning, noon, afternoon, evening; they succeed exactly when all four parse, and otherwise the first failure decides the error |
| PrescriptionBatch.DosesOf | backend/src/main/java/com/fpt/hivtreatment/controller/PrescriptionController.java:127-152 | an object with a "morningDose" key uses the explicit doses; one without uses the doses from its frequency |
| PrescriptionBatch.Instructions | backend/src/main/java/com/fpt/hivtreatment/controller/PrescriptionController.java:158-159 | "dosage - frequency - timing", with " - notes" added only when the notes are not empty |
| PrescriptionBatch.ItemFromObject | backend/src/main/java/com/fpt/hivtreatment/controller/PrescriptionController.java:118-161 | an item is built exactly when its medication id, doses, dosage and timing read, the first failure deciding the error; a built item has that medication, those doses, the default unit, the usage instructions and no prescription yet |
| PrescriptionBatch.ItemsOf | backend/src/main/java/com/fpt/hivtreatment/controller/PrescriptionController.java:117-162 | converting a group's objects gives one item per object |
| PrescriptionBatch.BuildItems | backend/src/main/java/com/fpt/hivtreatment/controller/PrescriptionController.java:117-162 | the loop builds exactly the items the conversion defines, or fails with its error |
| PrescriptionBatch.OrderOf | backend/src/main/java/com/fpt/hivtreatment/controller/PrescriptionController.java:96-166 | a group that converts gives a complete header and its items |
| PrescriptionBatch.Committed | backend/src/main/java/com/fpt/hivtreatment/controller/PrescriptionController.java:91-171 | the groups saved are exactly those before the first group that does not convert or cannot be saved |
| PrescriptionBatch.GroupsOutcome | backend/src/main/java/com/fpt/hivtreatment/controller/PrescriptionController.java:173-186 | a successful batch reports the new prescriptions' consecutive ids, their count and the message with that count |
| PrescriptionBatch.Outcome | backend/src/main/java/com/fpt/hivtreatment/controller/PrescriptionController.java:81-187 | a grouping error fails the batch; a successful batch reports one new id per group, their count and the message with that count |
| PrescriptionBatch.EmptyBatch | backend/src/main/java/com/fpt/hivtreatment/controller/PrescriptionController.java:173-180 | an empty batch creates nothing and reports a count of 0 |
| PrescriptionBatch.CreatedIff | backend/src/main/java/com/fpt/hivtreatment/controller/PrescriptionController.java:81-187 | the batch succeeds exactly when the grouping works and every group is accepted, and then it reports as many prescriptions as distinct record ids |
| PrescriptionBatch.HeaderRows | backend/src/main/java/com/fpt/hivtreatment/controller/PrescriptionController.java:165-166 | one prescription row per saved order |
| PrescriptionBatch.HeaderRowsMeaning | backend/src/main/java/com/fpt/hivtreatment/controller/PrescriptionController.java:165-166 | each header row is the new prescription of its order |
| PrescriptionBatch.RowsSnoc | backend/src/main/java/com/fpt/hivtreatment/controller/PrescriptionController.java:165-166 | saving one more order appends its prescription row and its item rows |
| PrescriptionBatch.FallbackDoseFailsAsWritten | backend/src/main/java/com/fpt/hivtreatment/controller/PrescriptionController.java:132-151 | as written, an accepted group with an item object lacking `morningDose` gets the fallback morning dose of 1, so its `createFullPrescription` fails with a null-pointer error |
| PrescriptionBatch.CommittedConverts | backend/src/main/java/com/fpt/hivtreatment/controller/PrescriptionController.java:91-171 | every group before the first rejected one converts |
| PrescriptionBatch.HeaderStep | backend/src/main/java/com/fpt/hivtreatment/controller/PrescriptionController.java:165-166 | inserting one more prescription extends the inserted header rows by one |
| PrescriptionBatch.ItemsAppended | backend/src/main/java/com/fpt/hivtreatment/controller/PrescriptionController.java:165-166 | inserting one order's items after the earlier ones gives the item rows of all of them |
| PrescriptionBatch.ItemRowsSnoc | backend/src/main/java/com/fpt/hivtreatment/controller/PrescriptionController.java:165-166 | the item rows of one more order are the earlier rows followed by that order's rows |
| PrescriptionBatch.OrdersOf | backend/src/main/java/com/fpt/hivtreatment/controller/PrescriptionController.java:91-171 | the orders of the first `k` groups: `k` of them, each with a complete header |
| PrescriptionBatch.SaveGroup | backend/src/main/java/com/fpt/hivtreatment/controller/PrescriptionController.java:96-166 | a group is saved exactly when it is accepted; a rejected one changes nothing and fails with the conversion's error or at the database; a saved one adds its prescription under the next key and its items |
| PrescriptionBatch.FailsAt | backend/src/main/java/com/fpt/hivtreatment/controller/PrescriptionController.java:182-186 | when group `i` is the first rejected one, exactly `i` groups are saved and the batch fails with that group's error |
| PrescriptionBatch.SavedAt | backend/src/main/java/com/fpt/hivtreatment/controller/PrescriptionController.java:91-171 | an accepted group `i` after accepted groups adds one saved order |
| PrescriptionBatch.SavedNextGroup | backend/src/main/java/com/fpt/hivtreatment/controller/PrescriptionController.java:165-166 | saving the next accepted group under the key after the earlier ones' keys extends the saved headers and items by that group's order |
| PrescriptionBatch.SaveStep | backend/src/main/java/com/fpt/hivtreatment/controller/PrescriptionController.java:91-171 | one loop step either saves group `i` under the next id and keeps the progress of the batch, or fails with the batch's failure, changing nothing |
| PrescriptionBatch.AllSaved | backend/src/main/java/com/fpt/hivtreatment/controller/PrescriptionController.java:173-180 | when every group is saved the batch reports their consecutive ids, their count and the message |
| PrescriptionBatch.SaveGroups | backend/src/main/java/com/fpt/hivtreatment/controller/PrescriptionController.java:91-186 | the loop reports the batch's outcome, and the tables then hold exactly the prescriptions and items of the groups saved before the first failure |
| PrescriptionBatch.CreatePrescriptionsBatch | backend/src/main/java/com/fpt/hivtreatment/controller/PrescriptionController.java:79-187 | the answer is the batch's outcome; a grouping error saves nothing; otherwise the groups before the first failure stay saved, with their prescriptions and items |
| Prescriptions.Blank | backend/src/main/java/com/fpt/hivtreatment/model/entity/Prescription.java:66-67 | a new prescription object holds only the default status "Đã kê"; its record, patient, doctor, protocol and dates are null |
| Prescriptions.NewPrescription | backend/src/main/java/com/fpt/hivtreatment/service/impl/PrescriptionServiceImplNew.java:29-42 | the saved header keeps the caller's fields, starts today when no start date was given, and is stamped with the current time by the persist hook (also backend/src/main/java/com/fpt/hivtreatment/model/entity/Prescription.java:80-83) |
| Prescriptions.InsertKeepsLinks | backend/src/main/java/com/fpt/hivtreatment/model/entity/Prescription.java:23-28 | a header whose medical record exists keeps every care link intact when inserted |
| Prescriptions.CreatePrescription | backend/src/main/java/com/fpt/hivtreatment/service/impl/PrescriptionServiceImplNew.java:29-46 | the save fails, changing nothing, exactly when a NOT NULL column is null or a foreign key does not resolve; otherwise the new header is stored under the next id, which is returned (also backend/src/main/java/com/fpt/hivtreatment/model/entity/Prescription.java:23-56) |
| Prescriptions.StampItems | backend/src/main/java/com/fpt/hivtreatment/service/impl/PrescriptionServiceImplNew.java:55-58 | every item, in order, gets the new prescription's id and nothing else changes |
| Prescriptions.StampedSaveable | backend/src/main/java/com/fpt/hivtreatment/service/impl/PrescriptionServiceImplNew.java:55-61 | once stamped with an existing prescription, an item fails to save exactly when its medication is unknown |
| Prescriptions.ReplaceItemsKeepsLinks | backend/src/main/java/com/fpt/hivtreatment/model/entity/Prescription.java:74-75 | new item and medication-reminder tables that link up keep every care link intact |
| Prescriptions.FreshItemsPlan | backend/src/main/java/com/fpt/hivtreatment/service/impl/PrescriptionServiceImplNew.java:61-67 | the ids of the items just saved are all known and every reminder planned for them names a known patient |
| Prescriptions.StampedRows | backend/src/main/java/com/fpt/hivtreatment/service/impl/PrescriptionServiceImplNew.java:55-61 | one saved row per item, each naming the prescription |
| Prescriptions.SaveItemsWithReminders | backend/src/main/java/com/fpt/hivtreatment/service/impl/PrescriptionServiceImplNew.java:55-67 | saving the items fails, changing nothing, exactly when a medication is unknown; otherwise the stamped rows are appended and the reminders planned for them are stored |
| Prescriptions.CreateFullErrorAsWritten | backend/src/main/java/com/fpt/hivtreatment/service/impl/PrescriptionServiceImplNew.java:48-73 | as written, an unsaveable header or an unknown medication breaks a constraint; otherwise the outcome is the reminder planning as written over the just-saved items |
| Prescriptions.CreateFullFailsOnDueDose | backend/src/main/java/com/fpt/hivtreatment/service/impl/PrescriptionServiceImplNew.java:48-73 | as written, a valid prescription with one item that has a due dose fails with a null-pointer error |
| Prescriptions.CreateFullPrescription | backend/src/main/java/com/fpt/hivtreatment/service/impl/PrescriptionServiceImplNew.java:48-73 | in one transaction: fails, changing nothing, exactly when the header cannot be saved or an item's medication is unknown; otherwise stores the header, its stamped items and their reminder plan, and returns the header's id |
| Prescriptions.Amended | backend/src/main/java/com/fpt/hivtreatment/service/impl/PrescriptionServiceImplNew.java:82-97 | each of protocol, doctor, start and end dates, doctor notes and status is replaced only when given; record, patient, protocol notes and creation time stay |
| Prescriptions.AmendedWithNothing | backend/src/main/java/com/fpt/hivtreatment/service/impl/PrescriptionServiceImplNew.java:82-97 | an update giving no field leaves the prescription as it was |
| Prescriptions.AmendedIdempotent | backend/src/main/java/com/fpt/hivtreatment/service/impl/PrescriptionServiceImplNew.java:82-97 | applying the same update twice is the same as once |
| Prescriptions.UpdateError | backend/src/main/java/com/fpt/hivtreatment/service/impl/PrescriptionServiceImplNew.java:79 | an unknown id is a runtime error; the update is accepted exactly when the id exists and a given doctor and protocol exist (also backend/src/main/java/com/fpt/hivtreatment/service/impl/PrescriptionServiceImplNew.java:101) |
| Prescriptions.UpdatePrescription | backend/src/main/java/com/fpt/hivtreatment/service/impl/PrescriptionServiceImplNew.java:76-105 | fails with the update's error, changing nothing, exactly when it is refused; otherwise stores and returns the amended prescription |
| Prescriptions.DeleteKeepsLinks | backend/src/main/java/com/fpt/hivtreatment/model/entity/Prescription.java:74-78 | deleting a prescription with its items, their reminders and its general reminders keeps every care link intact |
| Prescriptions.DeletePrescription | backend/src/main/java/com/fpt/hivtreatment/service/impl/PrescriptionServiceImplNew.java:108-117 | an unknown id is a runtime error that changes nothing; otherwise the prescription, its items, their medication reminders and the reminders naming it are deleted (also backend/src/main/java/com/fpt/hivtreatment/model/entity/Prescription.java:74-78) |
| Prescriptions.DeleteLeavesNoTrace | backend/src/main/java/com/fpt/hivtreatment/model/entity/Prescription.java:74-78 | after the cascade no item and no reminder names the deleted prescription |
| Prescriptions.AddError | backend/src/main/java/com/fpt/hivtreatment/service/impl/PrescriptionServiceImplNew.java:160-171 | an unknown prescription is a runtime error; the item is accepted exactly when the prescription and the medication exist and, when any dose is due, the patient exists |
| Prescriptions.SingleItemPlan | backend/src/main/java/com/fpt/hivtreatment/service/impl/PrescriptionServiceImplNew.java:170-171 | the reminders planned for one stored item are that item's own plan, and their patients are known exactly when no dose is due or the prescription's patient is stored |
| Prescriptions.AddPrescriptionItem | backend/src/main/java/com/fpt/hivtreatment/service/impl/PrescriptionServiceImplNew.java:160-174 | fails with the item's error, changing nothing, exactly when it is refused; otherwise the item is saved under the next id with its daily total and its reminders are stored |
| Prescriptions.SaveItemWithReminders | backend/src/main/java/com/fpt/hivtreatment/service/impl/PrescriptionServiceImplNew.java:166-171 | saving the item and then its reminders fails, leaving items and reminders as they were, exactly when the item is refused; otherwise one item row for the prescription and its planned reminders are added |
| Prescriptions.RemindersOrRollback | backend/src/main/java/com/fpt/hivtreatment/service/impl/PrescriptionServiceImplNew.java:169-171 | creating the reminders of the new item fails exactly when their plan does, and then the item save is undone; otherwise the planned reminders are appended and the items are unchanged |
| Prescriptions.RemovePrescriptionItem | backend/src/main/java/com/fpt/hivtreatment/service/impl/PrescriptionServiceImplNew.java:177-181 | the item of that id and its reminders are deleted, whatever prescription id is given |
| Prescriptions.GenerateMedicationReminders | backend/src/main/java/com/fpt/hivtreatment/service/impl/PrescriptionServiceImplNew.java:184-193 | plans reminders for every item of the prescription; fails, changing nothing, exactly when a planned reminder's patient is unknown; otherwise stores the plan |
| Prescriptions.GenerateForUnknownPrescription | backend/src/main/java/com/fpt/hivtreatment/service/impl/PrescriptionServiceImplNew.java:184-193 | a prescription that does not exist has no items and gets no reminders |
| Prescriptions.UpdatePrescriptionStatus | backend/src/main/java/com/fpt/hivtreatment/service/impl/PrescriptionServiceImplNew.java:196-202 | an unknown id is a runtime error that changes nothing; otherwise only the status changes, to the value given (null included) |
| Prescriptions.CancelPrescription | backend/src/main/java/com/fpt/hivtreatment/service/impl/PrescriptionServiceImplNew.java:205-209 | an unknown id is a runtime error that changes nothing; otherwise the status becomes "cancelled" and nothing else changes |
| Prescriptions.CompletePrescription | backend/src/main/java/com/fpt/hivtreatment/service/impl/PrescriptionServiceImplNew.java:212-216 | an unknown id is a runtime error that changes nothing; otherwise the status becomes "completed" and nothing else changes |
| Prescriptions.StatusChangeKeepsRest | backend/src/main/java/com/fpt/hivtreatment/service/impl/PrescriptionServiceImplNew.java:95-97 | setting a status is the general update that gives only that status (also backend/src/main/java/com/fpt/hivtreatment/service/impl/PrescriptionServiceImplNew.java:196-202) |
| Prescriptions.FindById | backend/src/main/java/com/fpt/hivtreatment/service/impl/PrescriptionServiceImplNew.java:120-123 | the stored prescription of that id, or a runtime error exactly when there is none |
| PrescriptionItems.DailyTotalBounds | backend/src/main/java/com/fpt/hivtreatment/service/impl/PrescriptionItemServiceImpl.java:109-126 | with no negative dose the daily total is at least each dose, and it is 0 exactly when no dose is positive (also backend/src/main/java/com/fpt/hivtreatment/model/entity/PrescriptionItem.java:91-96) |
| PrescriptionItems.CalculateDailyTotal | backend/src/main/java/com/fpt/hivtreatment/service/impl/PrescriptionItemServiceImpl.java:109-126 | the loop-free accumulation returns the sum of the doses with a missing dose counted as 0 |
| PrescriptionItems.FormulaTotal | backend/src/main/java/com/fpt/hivtreatment/model/entity/PrescriptionItem.java:50-52 | the SQL sum is defined exactly when all four doses are set, and then it is the daily total |
| PrescriptionItems.FormulaNullOnMissingDose | backend/src/main/java/com/fpt/hivtreatment/model/entity/PrescriptionItem.java:50-52 | with one dose missing the derived column is null while the service's total still counts the other three (also backend/src/main/java/com/fpt/hivtreatment/service/impl/PrescriptionItemServiceImpl.java:109-126) |
| PrescriptionItems.Blank | backend/src/main/java/com/fpt/hivtreatment/model/entity/PrescriptionItem.java:37-59 | a new item has no prescription, four zero doses (total 0 both ways) and the unit "viên" |
| PrescriptionItems.NewRow | backend/src/main/java/com/fpt/hivtreatment/model/entity/PrescriptionItem.java:23-83 | the stored row keeps the item's prescription, medication, doses, unit, instructions and notes, and both timestamps are the time of the save |
| PrescriptionItems.NewRows | backend/src/main/java/com/fpt/hivtreatment/service/impl/PrescriptionItemServiceImpl.java:35-44 | one stored row per item, in order |
| PrescriptionItems.CreatePrescriptionItem | backend/src/main/java/com/fpt/hivtreatment/service/impl/PrescriptionItemServiceImpl.java:22-32 | the save fails, changing nothing, exactly when the item has no prescription or a foreign key does not resolve; otherwise the row is stored under the next id and returned with its daily total |
| PrescriptionItems.CreatePrescriptionItems | backend/src/main/java/com/fpt/hivtreatment/service/impl/PrescriptionItemServiceImpl.java:34-44 | in one transaction: fails, changing nothing, exactly when some item cannot be saved; otherwise every item is saved in order under consecutive ids and returned with its daily total |
| PrescriptionItems.Revised | backend/src/main/java/com/fpt/hivtreatment/service/impl/PrescriptionItemServiceImpl.java:50-63 | the medication, doses, instructions and notes are replaced, the prescription, unit and creation time stay, and the update time moves only when a column changes (also backend/src/main/java/com/fpt/hivtreatment/model/entity/PrescriptionItem.java:85-88) |
| PrescriptionItems.RevisedIdempotent | backend/src/main/java/com/fpt/hivtreatment/service/impl/PrescriptionItemServiceImpl.java:47-64 | applying the same update twice leaves the row the first update made |
| PrescriptionItems.UpdateError | backend/src/main/java/com/fpt/hivtreatment/service/impl/PrescriptionItemServiceImpl.java:50 | an unknown item is a runtime error; an unknown medication fails at the save; otherwise the update is accepted (also backend/src/main/java/com/fpt/hivtreatment/service/impl/PrescriptionItemServiceImpl.java:63) |
| PrescriptionItems.UpdatePrescriptionItem | backend/src/main/java/com/fpt/hivtreatment/service/impl/PrescriptionItemServiceImpl.java:46-64 | fails with the update's error, changing nothing, exactly when it is refused; otherwise stores and returns the revised row with its new daily total |
| PrescriptionItems.UpdateItemStatus | backend/src/main/java/com/fpt/hivtreatment/service/impl/PrescriptionItemServiceImpl.java:99-108 | an unknown item is a runtime error; otherwise the stored row comes back unchanged, whatever status is given |
| PrescriptionItems.DeletePrescriptionItem | backend/src/main/java/com/fpt/hivtreatment/service/impl/PrescriptionItemServiceImpl.java:66-70 | the item and its medication reminders are deleted; an unknown id changes nothing (also backend/src/main/java/com/fpt/hivtreatment/model/entity/PrescriptionItem.java:76-77) |
| PrescriptionItems.FindByPrescriptionId | backend/src/main/java/com/fpt/hivtreatment/service/impl/PrescriptionItemServiceImpl.java:78-81 | exactly the items of that prescription, in ascending id order |
| MedicationReminders.TimeAt | backend/src/main/java/com/fpt/hivtreatment/model/entity/MedicationReminder.java:68-70 | each position 0 to 3 names the time of day of that rank, from morning to evening |
| MedicationReminders.RankInjective | backend/src/main/java/com/fpt/hivtreatment/model/entity/MedicationReminder.java:68-70 | different times of day have different ranks |
| MedicationReminders.DueFrom | backend/src/main/java/com/fpt/hivtreatment/service/impl/MedicationReminderServiceImpl.java:69-84 | from a rank on, exactly the times of day whose dose is set and positive, in rising order |
| MedicationReminders.DueTimes | backend/src/main/java/com/fpt/hivtreatment/service/impl/MedicationReminderServiceImpl.java:69-84 | exactly the times of day whose dose is set and positive, at most four, from morning to evening; none when no dose is due |
| MedicationReminders.RemindersAt | backend/src/main/java/com/fpt/hivtreatment/service/impl/MedicationReminderServiceImpl.java:90-102 | one reminder per given time of day, each for that time, with that time's dose |
| MedicationReminders.PlannedFor | backend/src/main/java/com/fpt/hivtreatment/service/impl/MedicationReminderServiceImpl.java:69-84 | one reminder per due time of day, in order, each naming the item, its time and dose, the prescription's patient and treatment period, active and stamped now (also backend/src/main/java/com/fpt/hivtreatment/service/impl/MedicationReminderServiceImpl.java:90-102) |
| MedicationReminders.PlannedForPatient | backend/src/main/java/com/fpt/hivtreatment/service/impl/MedicationReminderServiceImpl.java:93 | every reminder of an item names the patient of its prescription, and an item gets none exactly when no dose is due |
| MedicationReminders.Plan | backend/src/main/java/com/fpt/hivtreatment/service/impl/MedicationReminderServiceImpl.java:56-85 | the reminders of a list of items, at most four per item |
| MedicationReminders.PlanAttached | backend/src/main/java/com/fpt/hivtreatment/service/impl/MedicationReminderServiceImpl.java:56-85 | every planned reminder belongs to a listed item and carries that item's prescription's patient and period |
| MedicationReminders.PlanEmpty | backend/src/main/java/com/fpt/hivtreatment/service/impl/MedicationReminderServiceImpl.java:69-84 | items with no dose due get no reminders |
| MedicationReminders.PlannedAtAppend | backend/src/main/java/com/fpt/hivtreatment/service/impl/MedicationReminderServiceImpl.java:54-85 | a reminder planned in a list stays planned when more are added after it |
| MedicationReminders.PlannedAtPrepend | backend/src/main/java/com/fpt/hivtreatment/service/impl/MedicationReminderServiceImpl.java:54-85 | a reminder planned in a list stays planned when more are added before it |
| MedicationReminders.PlannedForCovers | backend/src/main/java/com/fpt/hivtreatment/service/impl/MedicationReminderServiceImpl.java:69-84 | every due time of day of an item gets a reminder |
| MedicationReminders.PlanCovers | backend/src/main/java/com/fpt/hivtreatment/service/impl/MedicationReminderServiceImpl.java:56-85 | every due time of day of every listed item gets a reminder in the plan |
| MedicationReminders.PlanSnoc | backend/src/main/java/com/fpt/hivtreatment/service/impl/MedicationReminderServiceImpl.java:56-85 | one more item adds its own reminders after those of the earlier items |
| MedicationReminders.KnownSnoc | backend/src/main/java/com/fpt/hivtreatment/service/impl/MedicationReminderServiceImpl.java:57-58 | a list of stored items stays stored when a stored item is added |
| MedicationReminders.PlanStep | backend/src/main/java/com/fpt/hivtreatment/service/impl/MedicationReminderServiceImpl.java:56-85 | one loop step adds the next item's reminders to the plan so far |
| MedicationReminders.PlanError | backend/src/main/java/com/fpt/hivtreatment/service/impl/MedicationReminderServiceImpl.java:57-58 | an unknown item is a runtime error; planning is accepted exactly when every item is stored and every planned reminder's patient exists (also backend/src/main/java/com/fpt/hivtreatment/model/entity/MedicationReminder.java:30-35) |
| MedicationReminders.KeysFrom | backend/src/main/java/com/fpt/hivtreatment/service/impl/MedicationReminderServiceImpl.java:42-45 | `n` consecutive keys from `start` on |
| MedicationReminders.KeysFromSnoc | backend/src/main/java/com/fpt/hivtreatment/service/impl/MedicationReminderServiceImpl.java:42-45 | one more key extends the consecutive run by one |
| MedicationReminders.PlanReminders | backend/src/main/java/com/fpt/hivtreatment/service/impl/MedicationReminderServiceImpl.java:54-85 | the loop fails with a runtime error exactly when an item is not stored; otherwise it returns the plan |
| MedicationReminders.SaveStep | backend/src/main/java/com/fpt/hivtreatment/service/impl/MedicationReminderServiceImpl.java:42-45 | saving one more planned reminder appends it and keeps every reminder linked to a stored item |
| MedicationReminders.SaveReminders | backend/src/main/java/com/fpt/hivtreatment/service/impl/MedicationReminderServiceImpl.java:28-48 | in one transaction: fails, changing nothing, exactly when some reminder names an unknown patient; otherwise every reminder is saved in order and their consecutive ids are returned |
| MedicationReminders.CreateRemindersFromPrescriptionItems | backend/src/main/java/com/fpt/hivtreatment/service/impl/MedicationReminderServiceImpl.java:50-88 | fails with the planning error, changing nothing, exactly when planning is refused; otherwise stores the plan of the listed items and returns the new ids |
| MedicationReminders.LookupAsWritten | backend/src/main/java/com/fpt/hivtreatment/service/impl/MedicationReminderServiceImpl.java:57-58 | the code as written fails with a runtime error on an unknown item and with a null-pointer error on a due item whose prescription association is not loaded (also backend/src/main/java/com/fpt/hivtreatment/service/impl/MedicationReminderServiceImpl.java:93) |
| MedicationReminders.PlanErrorAsWritten | backend/src/main/java/com/fpt/hivtreatment/service/impl/MedicationReminderServiceImpl.java:56-101 | the code as written succeeds only when no listed item has a dose due, since every reminder it builds lacks its NOT NULL start and end dates (also backend/src/main/java/com/fpt/hivtreatment/model/entity/MedicationReminder.java:49-53) |
| MedicationReminders.LookupAsWrittenFresh | backend/src/main/java/com/fpt/hivtreatment/service/impl/MedicationReminderServiceImpl.java:57-93 | as written, once every item is known, a fresh item with a due dose makes the lookups throw a null-pointer error |
| MedicationReminders.LookupAsWrittenNone | backend/src/main/java/com/fpt/hivtreatment/service/impl/MedicationReminderServiceImpl.java:57-58 | the lookup as written passes exactly when every item is stored and none saved in this transaction has a dose due (also backend/src/main/java/com/fpt/hivtreatment/service/impl/MedicationReminderServiceImpl.java:93) |
| MedicationReminders.AsWrittenSavesNothing | backend/src/main/java/com/fpt/hivtreatment/service/impl/MedicationReminderServiceImpl.java:56-101 | whenever the code as written succeeds, the corrected plan is empty too: it never stores a reminder |
| MedicationReminders.MissingDatesFinding | backend/src/main/java/com/fpt/hivtreatment/service/impl/MedicationReminderServiceImpl.java:90-101 | a stored item with one morning dose fails at the save as written, while the corrected planning stores its one reminder (also backend/src/main/java/com/fpt/hivtreatment/model/entity/MedicationReminder.java:49-53) |
| MedicationReminders.MorningOnly | backend/src/main/java/com/fpt/hivtreatment/service/impl/MedicationReminderServiceImpl.java:69-84 | a single morning dose is due only in the morning |
| MedicationReminders.UnloadedPrescriptionFinding | backend/src/main/java/com/fpt/hivtreatment/service/impl/MedicationReminderServiceImpl.java:93 | an item saved earlier in the same transaction with a morning dose fails with a null-pointer error as written, while the corrected planning succeeds |
| MedicationReminders.ToggleReminder | backend/src/main/java/com/fpt/hivtreatment/service/impl/MedicationReminderServiceImpl.java:185-195 | an unknown id is a runtime error that changes nothing; otherwise only the active flag changes, to the value given |
| MedicationReminders.MarkAsSent | backend/src/main/java/com/fpt/hivtreatment/service/impl/MedicationReminderServiceImpl.java:175-182 | an unknown id is a runtime error that changes nothing; otherwise only the active flag changes, to false |
| MedicationReminders.UpdateStatus | backend/src/main/java/com/fpt/hivtreatment/service/impl/MedicationReminderServiceImpl.java:158-166 | an unknown id is a runtime error that changes nothing; otherwise the reminder is active exactly when the status is "active" |
| MedicationReminders.UpdateError | backend/src/main/java/com/fpt/hivtreatment/service/impl/MedicationReminderServiceImpl.java:108-115 | an unknown id is a runtime error; a missing time, type or dose breaks a NOT NULL column; otherwise the update is accepted (also backend/src/main/java/com/fpt/hivtreatment/model/entity/MedicationReminder.java:38-46) |
| MedicationReminders.Overwritten | backend/src/main/java/com/fpt/hivtreatment/service/impl/MedicationReminderServiceImpl.java:110-113 | the time, type, dose and active flag are overwritten, a null flag included; item, patient, period and creation time stay |
| MedicationReminders.UpdateMedicationReminder | backend/src/main/java/com/fpt/hivtreatment/service/impl/MedicationReminderServiceImpl.java:104-116 | fails with the update's error, changing nothing, exactly when it is refused; otherwise stores and returns the overwritten reminder |
| MedicationReminders.DeleteMedicationReminder | backend/src/main/java/com/fpt/hivtreatment/service/impl/MedicationReminderServiceImpl.java:118-122 | the reminder of that id is gone; an unknown id changes nothing |
| MedicationReminders.FindByPatientId | backend/src/main/java/com/fpt/hivtreatment/service/impl/MedicationReminderServiceImpl.java:130-133 | exactly the reminders of that patient; a null patient matches none |
| MedicationReminders.FindActiveByPatientId | backend/src/main/java/com/fpt/hivtreatment/service/impl/MedicationReminderServiceImpl.java:152-155 | the same list as by patient: the active flag is not consulted |
| MedicationReminders.ActiveListKeepsInactive | backend/src/main/java/com/fpt/hivtreatment/service/impl/MedicationReminderServiceImpl.java:152-155 | an inactive reminder of the patient is still in the "active" list |
| MedicationReminders.FindByPrescriptionItemId | backend/src/main/java/com/fpt/hivtreatment/service/impl/MedicationReminderServiceImpl.java:135-138 | exactly the reminders of that item; a null item matches none |
| MedicationReminders.FindByReminderTime | backend/src/main/java/com/fpt/hivtreatment/service/impl/MedicationReminderServiceImpl.java:140-144 | the placeholder query for a null item answers with nothing, whatever the time |
| MedicationReminders.FindByTimeSlot | backend/src/main/java/com/fpt/hivtreatment/service/impl/MedicationReminderServiceImpl.java:146-150 | the placeholder answers with nothing, whatever the slot |
| MedicationReminders.FindRemindersToSend | backend/src/main/java/com/fpt/hivtreatment/service/impl/MedicationReminderServiceImpl.java:168-172 | the placeholder query for a null patient answers with nothing, whatever the period |
| Reminders.OtherLengthsActive | backend/src/main/java/com/fpt/hivtreatment/service/impl/ReminderServiceImpl.java:118 | a status of any length other than that of "inactive" and "disabled" means active |
| Reminders.StatusWords | backend/src/main/java/com/fpt/hivtreatment/service/impl/ReminderServiceImpl.java:118 | "inactive" and "disabled" in any case mean inactive; a null, empty or "active" status means active (also backend/src/main/java/com/fpt/hivtreatment/service/impl/ReminderServiceImpl.java:156) |
| Reminders.Created | backend/src/main/java/com/fpt/hivtreatment/service/impl/ReminderServiceImpl.java:28-32 | the stored reminder is the given one with both timestamps set to the time of the save (also backend/src/main/java/com/fpt/hivtreatment/model/entity/Reminder.java:80-84) |
| Reminders.CreatedIgnoresTimestamps | backend/src/main/java/com/fpt/hivtreatment/service/impl/ReminderServiceImpl.java:28-30 | timestamps the caller sets make no difference to what is stored (also backend/src/main/java/com/fpt/hivtreatment/model/entity/Reminder.java:80-84) |
| Reminders.CreatedAll | backend/src/main/java/com/fpt/hivtreatment/service/impl/ReminderServiceImpl.java:39-48 | one stored reminder per given one, in order |
| Reminders.WithActive | backend/src/main/java/com/fpt/hivtreatment/service/impl/ReminderServiceImpl.java:118-119 | only the active flag and the update time change (also backend/src/main/java/com/fpt/hivtreatment/service/impl/ReminderServiceImpl.java:147-148) |
| Reminders.UpdateError | backend/src/main/java/com/fpt/hivtreatment/service/impl/ReminderServiceImpl.java:54 | an unknown id is a runtime error; a missing title or type breaks a NOT NULL column; otherwise the update is accepted (also backend/src/main/java/com/fpt/hivtreatment/service/impl/ReminderServiceImpl.java:63, backend/src/main/java/com/fpt/hivtreatment/model/entity/Reminder.java:30-31, backend/src/main/java/com/fpt/hivtreatment/model/entity/Reminder.java:49-50) |
| Reminders.Overwritten | backend/src/main/java/com/fpt/hivtreatment/service/impl/ReminderServiceImpl.java:56-61 | title, message, time, type and active flag come from the request, nulls included, and the update time is stamped; patient, links, dates and creation time stay |
| Reminders.UpdateKeepsLinks | backend/src/main/java/com/fpt/hivtreatment/model/entity/Reminder.java:34-46 | replacing a reminder by one with the same links keeps them valid |
| Reminders.AppliesOnCases | backend/src/main/java/com/fpt/hivtreatment/service/impl/ReminderServiceImpl.java:169-183 | a dated reminder applies on its date only; otherwise on the days of its period, from its start on when it has no end, and on every day without a start |
| Reminders.DatedAppliesOnce | backend/src/main/java/com/fpt/hivtreatment/service/impl/ReminderServiceImpl.java:171-173 | a reminder with a date applies on one day only |
| Reminders.PeriodCoversEnds | backend/src/main/java/com/fpt/hivtreatment/service/impl/ReminderServiceImpl.java:175-177 | a period applies on its first and its last day |
| Reminders.AppliesOnConvex | backend/src/main/java/com/fpt/hivtreatment/service/impl/ReminderServiceImpl.java:169-183 | the days a reminder applies on have no gaps |
| Reminders.OpenEndedKeepsApplying | backend/src/main/java/com/fpt/hivtreatment/service/impl/ReminderServiceImpl.java:179-181 | a reminder without an end keeps applying on every later day |
| Reminders.StoredRowRule | backend/src/main/java/com/fpt/hivtreatment/service/impl/ReminderServiceImpl.java:169-183 | a stored reminder without a date, whose start is NOT NULL, applies from its start up to its end if it has one (also backend/src/main/java/com/fpt/hivtreatment/model/entity/Reminder.java:56-60) |
| Reminders.CreateReminder | backend/src/main/java/com/fpt/hivtreatment/service/impl/ReminderServiceImpl.java:23-36 | the save succeeds exactly when the prescription and record it names exist; a refusal changes nothing; otherwise the stamped reminder is stored under the next id |
| Reminders.CreatedStep | backend/src/main/java/com/fpt/hivtreatment/service/impl/ReminderServiceImpl.java:43-45 | saving the next reminder extends the reminders saved so far by it |
| Reminders.StorableStep | backend/src/main/java/com/fpt/hivtreatment/service/impl/ReminderServiceImpl.java:43-45 | one more storable reminder keeps the prefix storable |
| Reminders.CreateReminders | backend/src/main/java/com/fpt/hivtreatment/service/impl/ReminderServiceImpl.java:38-48 | in one transaction: succeeds exactly when every reminder is storable, then stores them all in order under consecutive ids; a refusal changes nothing |
| Reminders.UpdateReminder | backend/src/main/java/com/fpt/hivtreatment/service/impl/ReminderServiceImpl.java:50-64 | fails with the update's error, changing nothing, exactly when it is refused; otherwise stores and returns the overwritten reminder |
| Reminders.SetActive | backend/src/main/java/com/fpt/hivtreatment/service/impl/ReminderServiceImpl.java:112-122 | an unknown id is a runtime error that changes nothing; otherwise the flag is set to the given value and the update time stamped (also backend/src/main/java/com/fpt/hivtreatment/service/impl/ReminderServiceImpl.java:140-151) |
| Reminders.UpdateStatus | backend/src/main/java/com/fpt/hivtreatment/service/impl/ReminderServiceImpl.java:112-122 | an unknown id is a runtime error that changes nothing; otherwise the reminder is active exactly when the status is neither "inactive" nor "disabled" in any case |
| Reminders.MarkAsSent | backend/src/main/java/com/fpt/hivtreatment/service/impl/ReminderServiceImpl.java:140-151 | an unknown id is a runtime error that changes nothing; otherwise the reminder becomes inactive |
| Reminders.DeleteReminder | backend/src/main/java/com/fpt/hivtreatment/service/impl/ReminderServiceImpl.java:66-70 | the reminder of that id is gone; an unknown id changes nothing |
| Reminders.FindById | backend/src/main/java/com/fpt/hivtreatment/service/impl/ReminderServiceImpl.java:72-76 | the stored reminder of that id, or a runtime error exactly when there is none |
| Reminders.FindByPatientId | backend/src/main/java/com/fpt/hivtreatment/service/impl/ReminderServiceImpl.java:78-81 | exactly the reminders of that patient; a null patient matches none |
| Reminders.FindByType | backend/src/main/java/com/fpt/hivtreatment/service/impl/ReminderServiceImpl.java:83-86 | exactly the reminders of that type; a null type matches none |
| Reminders.FindActiveByPatientId | backend/src/main/java/com/fpt/hivtreatment/service/impl/ReminderServiceImpl.java:99-102 | exactly the patient's reminders whose flag is true |
| Reminders.FindByPatientIdAndType | backend/src/main/java/com/fpt/hivtreatment/service/impl/ReminderServiceImpl.java:104-110 | a null type throws a null-pointer error exactly when the patient has a reminder; otherwise the patient's reminders of that type, in id order |
| Reminders.FindByReminderTime | backend/src/main/java/com/fpt/hivtreatment/service/impl/ReminderServiceImpl.java:88-97 | exactly the reminders set at the time of day of the given moment |
| Reminders.ReminderTimeIgnoresDay | backend/src/main/java/com/fpt/hivtreatment/service/impl/ReminderServiceImpl.java:93-96 | two moments at the same time of day find the same reminders |
| Reminders.FindRemindersToSend | backend/src/main/java/com/fpt/hivtreatment/service/impl/ReminderServiceImpl.java:124-138 | exactly the active reminders with a date that falls between the two moments' days; reminders without a date are never sent |
| Reminders.ToSendOnOneDay | backend/src/main/java/com/fpt/hivtreatment/service/impl/ReminderServiceImpl.java:130-136 | within one day, a reminder is to be sent exactly when it is active and dated that day |
| Reminders.FindByStatus | backend/src/main/java/com/fpt/hivtreatment/service/impl/ReminderServiceImpl.java:153-160 | exactly the reminders whose flag equals the status's meaning; a null flag matches neither |
| Reminders.FindActiveRemindersByDate | backend/src/main/java/com/fpt/hivtreatment/service/impl/ReminderServiceImpl.java:162-185 | exactly the patient's active reminders that apply on the date, in id order |
| Reminders.UpdatedStatusListed | backend/src/main/java/com/fpt/hivtreatment/service/impl/ReminderServiceImpl.java:112-122 | after a status update the reminder is listed under that status (also backend/src/main/java/com/fpt/hivtreatment/service/impl/ReminderServiceImpl.java:153-160) |
| Reminders.SentLeavesLists | backend/src/main/java/com/fpt/hivtreatment/service/impl/ReminderServiceImpl.java:140-151 | a reminder marked as sent is neither to be sent nor active on any date |
| Reminders.TodayIsToSend | backend/src/main/java/com/fpt/hivtreatment/service/impl/ReminderServiceImpl.java:124-138 | a dated reminder active on a day is among those to send during that day (also backend/src/main/java/com/fpt/hivtreatment/service/impl/ReminderServiceImpl.java:162-185) |
| TreatmentProtocols.OfProtocol | backend/src/main/java/com/fpt/hivtreatment/service/impl/TreatmentProtocolServiceImpl.java:118 | exactly the mapping rows of that protocol, in the given order (also backend/src/main/java/com/fpt/hivtreatment/service/impl/TreatmentProtocolServiceImpl.java:160-161) |
| TreatmentProtocols.StoredMedications | backend/src/main/java/com/fpt/hivtreatment/service/impl/TreatmentProtocolServiceImpl.java:179-182 | the medications of the given mapping rows that are stored, in order; when all are stored, one per row |
| TreatmentProtocols.StoredMedicationsSnoc | backend/src/main/java/com/fpt/hivtreatment/service/impl/TreatmentProtocolServiceImpl.java:179-182 | one more mapping row adds its medication when it is stored |
| TreatmentProtocols.StoredMedicationsAgree | backend/src/main/java/com/fpt/hivtreatment/service/impl/TreatmentProtocolServiceImpl.java:170-173 | two medication sets that agree on the medications named give the same list (also backend/src/main/java/com/fpt/hivtreatment/service/impl/TreatmentProtocolServiceImpl.java:179-182) |
| TreatmentProtocols.GetMedicationsByProtocolId | backend/src/main/java/com/fpt/hivtreatment/service/impl/TreatmentProtocolServiceImpl.java:105-134 | an unknown protocol has no medications; otherwise exactly the stored medications its mapping rows name |
| TreatmentProtocols.OneMedicationPerMapping | backend/src/main/java/com/fpt/hivtreatment/service/impl/TreatmentProtocolServiceImpl.java:118-125 | when every mapping's medication is stored, a protocol's list has one medication per mapping row, in order |
| TreatmentProtocols.NoMappingsNoMedications | backend/src/main/java/com/fpt/hivtreatment/service/impl/TreatmentProtocolServiceImpl.java:105-134 | with no mapping rows no protocol has medications |
| TreatmentProtocols.GroupStep | backend/src/main/java/com/fpt/hivtreatment/service/impl/TreatmentProtocolServiceImpl.java:160-161 | adding one mapping row to its protocol's group keeps every group equal to that protocol's rows so far |
| TreatmentProtocols.GroupByProtocol | backend/src/main/java/com/fpt/hivtreatment/service/impl/TreatmentProtocolServiceImpl.java:159-161 | every protocol's group is exactly its mapping rows, in order |
| TreatmentProtocols.ListedStep | backend/src/main/java/com/fpt/hivtreatment/service/impl/TreatmentProtocolServiceImpl.java:176-185 | the list built for a protocol from its group and the fetched medications is its medication list |
| TreatmentProtocols.FetchMedications | backend/src/main/java/com/fpt/hivtreatment/service/impl/TreatmentProtocolServiceImpl.java:163-173 | the fetched map holds exactly the stored medications the mapping rows name |
| TreatmentProtocols.KeysOfProtocols | backend/src/main/java/com/fpt/hivtreatment/service/impl/TreatmentProtocolServiceImpl.java:142 | a result with an entry per listed protocol has exactly the stored protocols as keys (also backend/src/main/java/com/fpt/hivtreatment/service/impl/TreatmentProtocolServiceImpl.java:176-185) |
| TreatmentProtocols.ListedAdd | backend/src/main/java/com/fpt/hivtreatment/service/impl/TreatmentProtocolServiceImpl.java:184 | an entry holding a protocol's medication list keeps the result correct |
| TreatmentProtocols.EmptyLists | backend/src/main/java/com/fpt/hivtreatment/service/impl/TreatmentProtocolServiceImpl.java:153-157 | with no mappings every protocol gets an empty list, which is its medication list |
| TreatmentProtocols.KeysStep | backend/src/main/java/com/fpt/hivtreatment/service/impl/TreatmentProtocolServiceImpl.java:176-185 | one more entry extends the keys to the next protocol |
| TreatmentProtocols.ListEach | backend/src/main/java/com/fpt/hivtreatment/service/impl/TreatmentProtocolServiceImpl.java:175-187 | every stored protocol gets its medication list |
| TreatmentProtocols.GetAllProtocolsWithMedications | backend/src/main/java/com/fpt/hivtreatment/service/impl/TreatmentProtocolServiceImpl.java:136-188 | one entry per stored protocol, each holding exactly the medications `getMedicationsByProtocolId` gives it |
| TreatmentProtocols.NoMappingsEmptyList | backend/src/main/java/com/fpt/hivtreatment/service/impl/TreatmentProtocolServiceImpl.java:153-157 | with no mappings each protocol's medication list is empty |
| TreatmentProtocols.SavedProtocol | backend/src/main/java/com/fpt/hivtreatment/service/impl/TreatmentProtocolServiceImpl.java:86-91 | the saved protocol keeps the caller's fields, is stamped as updated now, and keeps its creation time when it exists or is created now |
| TreatmentProtocols.SaveProtocol | backend/src/main/java/com/fpt/hivtreatment/service/impl/TreatmentProtocolServiceImpl.java:83-96 | a missing name breaks the NOT NULL column and a code another protocol uses breaks the unique column; both fail with a data-integrity error and change nothing; otherwise an existing protocol is replaced under its id, and a new one is inserted under the next id (also backend/src/main/java/com/fpt/hivtreatment/model/entity/TreatmentProtocol.java:26-29) |
| TreatmentProtocols.SaveAgainKeepsCreation | backend/src/main/java/com/fpt/hivtreatment/service/impl/TreatmentProtocolServiceImpl.java:86-91 | saving an existing protocol again keeps its original creation time |
| UserManagement.RoleIdOf | backend/src/main/java/com/fpt/hivtreatment/service/impl/UserManagementServiceImpl.java:39 | `Integer.parseInt` of the value's text: a number-format error exactly when that text is not a 32-bit integer, otherwise that integer (also backend/src/main/java/com/fpt/hivtreatment/service/impl/UserManagementServiceImpl.java:41) |
| UserManagement.IntRoleIdRead | backend/src/main/java/com/fpt/hivtreatment/service/impl/UserManagementServiceImpl.java:39 | a number within the 32-bit range reads back as itself |
| UserManagement.ExtractFilterCriteria | backend/src/main/java/com/fpt/hivtreatment/service/impl/UserManagementServiceImpl.java:34-48 | fails with a number-format error when the role filter does not parse and otherwise with a cast error when "isActive" is not a boolean; a success has a role exactly when "roleId" or else "role" is set, with its parsed value, the flag exactly when "isActive" is set, and the search text exactly when "search" is set |
| UserManagement.RoleIdFirst | backend/src/main/java/com/fpt/hivtreatment/service/impl/UserManagementServiceImpl.java:38-42 | when "roleId" is set, "role" is never consulted |
| UserManagement.SearchOnly | backend/src/main/java/com/fpt/hivtreatment/service/impl/UserManagementServiceImpl.java:34-48 | a search-only filter map gives just that search text |
| UserManagement.MatchesOwnNames | backend/src/main/java/com/fpt/hivtreatment/service/impl/UserManagementServiceImpl.java:51-58 | a user matches a search for its own username, full name or email |
| UserManagement.Matching | backend/src/main/java/com/fpt/hivtreatment/service/impl/UserManagementServiceImpl.java:82-86 | exactly the listed users that match the search, in the same order |
| UserManagement.AscendingFront | backend/src/main/java/com/fpt/hivtreatment/service/impl/UserManagementServiceImpl.java:65 | dropping the last of an ascending list leaves the smaller keys, still ascending |
| UserManagement.AscendingSameLength | backend/src/main/java/com/fpt/hivtreatment/service/impl/UserManagementServiceImpl.java:65 | two ascending lists with the same keys have the same length |
| UserManagement.AscendingUnique | backend/src/main/java/com/fpt/hivtreatment/service/impl/UserManagementServiceImpl.java:65 | two ascending lists with the same keys are equal |
| UserManagement.MatchingAll | backend/src/main/java/com/fpt/hivtreatment/service/impl/UserManagementServiceImpl.java:117-120 | searching every user gives the users that match the search query |
| UserManagement.UserIds | backend/src/main/java/com/fpt/hivtreatment/service/impl/UserManagementServiceImpl.java:60-87 | a bad filter fails with its error; otherwise a negative page or a size below 1 is an illegal argument; a page has at most `size` users, in id order, each passing the role and flag filters and the search |
| UserManagement.PageAscending | backend/src/main/java/com/fpt/hivtreatment/service/impl/UserManagementServiceImpl.java:65 | a page of an ascending list is ascending |
| UserManagement.SearchFiltersPage | backend/src/main/java/com/fpt/hivtreatment/service/impl/UserManagementServiceImpl.java:70-86 | with a search, the list is the fetched page filtered by the search, after the database's paging |
| UserManagement.CountUsers | backend/src/main/java/com/fpt/hivtreatment/service/impl/UserManagementServiceImpl.java:95-124 | without filters the number of users; a bad filter fails with its error; with filters and no search term, the number of users the role and active filters admit, which is what the list shows |
| UserManagement.CountWithSearch | backend/src/main/java/com/fpt/hivtreatment/service/impl/UserManagementServiceImpl.java:116-121 | as written, a search counts every matching user, whatever the role and flag filters say |
| UserManagement.CountUsersConsistent | backend/src/main/java/com/fpt/hivtreatment/service/impl/UserManagementServiceImpl.java:95-124 | the count with the search applied to the filtered users; a bad filter fails |
| UserManagement.ConsistentCountIsListLength | backend/src/main/java/com/fpt/hivtreatment/service/impl/UserManagementServiceImpl.java:60-124 | when one page holds every filtered user, the corrected count equals the length of the list |
| UserManagement.NeverListed | backend/src/main/java/com/fpt/hivtreatment/service/impl/UserManagementServiceImpl.java:70-79 | a user the role and flag filters exclude is on no page |
| UserManagement.AscendingLonger | backend/src/main/java/com/fpt/hivtreatment/service/impl/UserManagementServiceImpl.java:117-120 | an ascending sub-list missing a key of the full list is shorter |
| UserManagement.MatchingCard | backend/src/main/java/com/fpt/hivtreatment/service/impl/UserManagementServiceImpl.java:105-121 | a matching user the filter excludes makes the filtered matches fewer than all matches |
| UserManagement.MatchingLonger | backend/src/main/java/com/fpt/hivtreatment/service/impl/UserManagementServiceImpl.java:117-120 | a matching user missing from a sub-list makes its matches fewer |
| UserManagement.CountOverstatesList | backend/src/main/java/com/fpt/hivtreatment/service/impl/UserManagementServiceImpl.java:105-121 | a matching user the role or flag filter excludes makes the count as written larger than the corrected one |
| UserManagement.ToResponse | backend/src/main/java/com/fpt/hivtreatment/service/impl/UserManagementServiceImpl.java:262-281 | a user without a role throws a null-pointer error; otherwise the response copies the user's fields, its role's id and name, and is stamped now |
| UserManagement.Responses | backend/src/main/java/com/fpt/hivtreatment/service/impl/UserManagementServiceImpl.java:90-92 | fails exactly when a listed user has no role; otherwise one response per user, in order |
| UserManagement.GetAllUsers | backend/src/main/java/com/fpt/hivtreatment/service/impl/UserManagementServiceImpl.java:60-93 | the responses of the page of users, or the error of the filters or the paging |
| UserManagement.CreateError | backend/src/main/java/com/fpt/hivtreatment/service/impl/UserManagementServiceImpl.java:150-172 | a taken username is an illegal argument; an unknown role is not found; a null role id, which the admin endpoint's request validation rejects before the service is called, is refused by `findById` (InvalidDataAccessApiUsageException); an accepted request has a free username and email, a stored role and a password (also backend/src/main/java/com/fpt/hivtreatment/model/entity/User.java:28-34) |
| UserManagement.NewUser | backend/src/main/java/com/fpt/hivtreatment/service/impl/UserManagementServiceImpl.java:162-170 | the stored user takes the request's fields, the hashed password, the role and the requested active flag |
| UserManagement.CreateUser | backend/src/main/java/com/fpt/hivtreatment/service/impl/UserManagementServiceImpl.java:148-175 | fails with the request's error, changing nothing, exactly when it is refused; otherwise stores the new user under the next id and returns its response |
| UserManagement.UpdateError | backend/src/main/java/com/fpt/hivtreatment/service/impl/UserManagementServiceImpl.java:177-207 | the checks in the order they bite: an unknown user or a given unknown role is not found; an updated user without a role throws a null-pointer error while the response is built, before the flush; only then does a given email of another user break the unique column; otherwise the update is accepted (also backend/src/main/java/com/fpt/hivtreatment/service/impl/UserManagementServiceImpl.java:270) |
| UserManagement.Updated | backend/src/main/java/com/fpt/hivtreatment/service/impl/UserManagementServiceImpl.java:183-203 | each field the request sets is replaced; username, password, gender and birth date stay |
| UserManagement.UpdatedIdempotent | backend/src/main/java/com/fpt/hivtreatment/service/impl/UserManagementServiceImpl.java:183-203 | an empty request changes nothing, and the same request twice is the same as once |
| UserManagement.UpdateUser | backend/src/main/java/com/fpt/hivtreatment/service/impl/UserManagementServiceImpl.java:177-207 | fails exactly when the checks fail, with their error, changing nothing (the rollback included); an accepted update stores the updated user and returns its response |
| UserManagement.UpdateUserRole | backend/src/main/java/com/fpt/hivtreatment/service/impl/UserManagementServiceImpl.java:216-222 | an unknown user or role is not found and changes nothing; otherwise only the role changes |
| UserManagement.UpdateUserStatus | backend/src/main/java/com/fpt/hivtreatment/service/impl/UserManagementServiceImpl.java:224-230 | an unknown user is not found; a user without a role throws; otherwise only the active flag changes, and a null flag changes nothing |
| UserManagement.UpdateUserPhone | backend/src/main/java/com/fpt/hivtreatment/service/impl/UserManagementServiceImpl.java:232-238 | an unknown user is not found; a user without a role throws; otherwise only the phone changes, and a null phone changes nothing |
| UserManagement.GetUserById | backend/src/main/java/com/fpt/hivtreatment/service/impl/UserManagementServiceImpl.java:139-143 | an unknown id is not found; a user without a role throws; otherwise the response of that user (also backend/src/main/java/com/fpt/hivtreatment/service/impl/UserManagementServiceImpl.java:210-213) |
| UserManagement.CreateThenGet | backend/src/main/java/com/fpt/hivtreatment/service/impl/UserManagementServiceImpl.java:139-175 | a created user reads back as the response its creation returned |
| UserManagement.ResetPassword | backend/src/main/java/com/fpt/hivtreatment/service/impl/UserManagementServiceImpl.java:251-257 | an unknown user is not found; a null password is refused by the encoder; otherwise only the password changes, to its hash |
| UserManagement.DeletedCount | backend/src/main/java/com/fpt/hivtreatment/repository/UserRepository.java:74-77 | the native delete removes one row exactly when the user exists, and none otherwise |
| UserManagement.DeleteUser | backend/src/main/java/com/fpt/hivtreatment/service/impl/UserManagementServiceImpl.java:240-249 | an unknown user is not found and nothing changes; otherwise that user is deleted |
| UserDetailsService.FindByUsername | backend/src/main/java/com/fpt/hivtreatment/security/services/UserDetailsServiceImpl.java:23-24 | nothing exactly when no stored user has that name; otherwise a stored user of that name, the only one when names are unique |
| UserDetailsService.Build | backend/src/main/java/com/fpt/hivtreatment/security/services/UserDetailsImpl.java:30-43 | a user without a role throws a null-pointer error; otherwise the principal copies id, username, email, full name and password, and its one authority is the role id as text |
| UserDetailsService.LoadUserByUsername | backend/src/main/java/com/fpt/hivtreatment/security/services/UserDetailsServiceImpl.java:20-32 | an unknown name, or a user whose active flag is false, is not found; otherwise the built principal of that user |
| UserDetailsService.LoadedIsEnabledUser | backend/src/main/java/com/fpt/hivtreatment/security/services/UserDetailsServiceImpl.java:20-32 | a loaded principal is a stored, enabled user of that name with a role, its password and its role id as only authority; with unique names every enabled user with a role loads (also backend/src/main/java/com/fpt/hivtreatment/security/services/UserDetailsImpl.java:30-43) |
| UserDetailsService.DisabledNeverLoads | backend/src/main/java/com/fpt/hivtreatment/security/services/UserDetailsServiceImpl.java:27-29 | a user whose active flag is false never loads |
| UserDetailsService.AuthorityIsRoleId | backend/src/main/java/com/fpt/hivtreatment/security/services/UserDetailsImpl.java:32-33 | the principal's single authority parses back to its role id |
| AuthService.StripRolePrefix | backend/src/main/java/com/fpt/hivtreatment/service/impl/AuthServiceImpl.java:72-75 | an authority starting with "ROLE_" loses exactly that prefix; any other is kept as it is |
| AuthService.StripAddedPrefix | backend/src/main/java/com/fpt/hivtreatment/service/impl/AuthServiceImpl.java:72-75 | stripping undoes adding the prefix |
| AuthService.NumbersKeptAsIs | backend/src/main/java/com/fpt/hivtreatment/service/impl/AuthServiceImpl.java:72-75 | a role id as text has no prefix to strip (also backend/src/main/java/com/fpt/hivtreatment/security/services/UserDetailsImpl.java:32-33) |
| AuthService.CollectRoles | backend/src/main/java/com/fpt/hivtreatment/service/impl/AuthServiceImpl.java:70-77 | one role per authority, in order, each the stripped authority |
| AuthService.AuthenticateUser | backend/src/main/java/com/fpt/hivtreatment/service/impl/AuthServiceImpl.java:52-105 | the response carries the principal's id, name, email, full name, stripped roles and the token; a stored user of that name adds its profile, flag and role, and throws when it has no role; with no stored user those stay null |
| AuthService.SignInLoaded | backend/src/main/java/com/fpt/hivtreatment/service/impl/AuthServiceImpl.java:52-105 | signing in a loaded principal succeeds, with its role id as its one role and the stored role id (also backend/src/main/java/com/fpt/hivtreatment/security/services/UserDetailsServiceImpl.java:20-32) |
| AuthService.CheckUsernameExists | backend/src/main/java/com/fpt/hivtreatment/service/impl/AuthServiceImpl.java:166-169 | true exactly when a stored user has that name |
| AuthService.CheckEmailExists | backend/src/main/java/com/fpt/hivtreatment/service/impl/AuthServiceImpl.java:172-178 | true exactly when the email is given, not empty, and stored |
| AuthService.RegisterError | backend/src/main/java/com/fpt/hivtreatment/service/impl/AuthServiceImpl.java:113-124 | a taken username, then a taken non-empty email, refuse the registration; it is accepted exactly when the username is free, the patient role exists and a given email, empty or not, is not stored (also backend/src/main/java/com/fpt/hivtreatment/service/impl/AuthServiceImpl.java:151-152, backend/src/main/java/com/fpt/hivtreatment/model/entity/User.java:34) |
| AuthService.Registered | backend/src/main/java/com/fpt/hivtreatment/service/impl/AuthServiceImpl.java:127-155 | the new user takes the request's fields and the encoded password, the patient role, and is active |
| AuthService.RegisterUser | backend/src/main/java/com/fpt/hivtreatment/service/impl/AuthServiceImpl.java:108-157 | fails with the registration's error, changing nothing, exactly when it is refused; otherwise stores the new user under the next id |
| AuthService.RegisteredUserLoads | backend/src/main/java/com/fpt/hivtreatment/service/impl/AuthServiceImpl.java:157-162 | a registered user loads by its name as an enabled patient whose one authority is the patient role (also backend/src/main/java/com/fpt/hivtreatment/security/services/UserDetailsServiceImpl.java:20-32) |
| AuthService.RegisteredIsTaken | backend/src/main/java/com/fpt/hivtreatment/service/impl/AuthServiceImpl.java:113-124 | after a registration the username, and a given non-empty email, are reported as taken (also backend/src/main/java/com/fpt/hivtreatment/service/impl/AuthServiceImpl.java:166-178) |
| AuthTokenFilter.ParseJwt | backend/src/main/java/com/fpt/hivtreatment/security/jwt/AuthTokenFilter.java:102-115 | a token exactly when the header starts with "Bearer ", and then the header is "Bearer " followed by the token |
| AuthTokenFilter.BearerHasText | backend/src/main/java/com/fpt/hivtreatment/security/jwt/AuthTokenFilter.java:105 | a header starting with "Bearer " always has text, so the text check never decides alone |
| AuthTokenFilter.ParseJwtRoundTrip | backend/src/main/java/com/fpt/hivtreatment/security/jwt/AuthTokenFilter.java:105-111 | every token, the empty one included, reads back from its header |
| AuthTokenFilter.NoBearerNoToken | backend/src/main/java/com/fpt/hivtreatment/security/jwt/AuthTokenFilter.java:102-115 | missing, empty, blank, other-scheme and lower-case "bearer" headers carry no token |
| AuthTokenFilter.TokenAuthentication | backend/src/main/java/com/fpt/hivtreatment/security/jwt/AuthTokenFilter.java:41-77 | an authentication exactly when there is a token, it is valid, its subject reads and that user loads; it is that principal with its authorities |
| AuthTokenFilter.NoTokenNoAuthentication | backend/src/main/java/com/fpt/hivtreatment/security/jwt/AuthTokenFilter.java:41-42 | without a bearer header no one is authenticated |
| AuthTokenFilter.DisabledNotAuthenticated | backend/src/main/java/com/fpt/hivtreatment/security/jwt/AuthTokenFilter.java:41-77 | a valid token of a disabled user authenticates no one (also backend/src/main/java/com/fpt/hivtreatment/security/services/UserDetailsServiceImpl.java:27-29) |
| AuthTokenFilter.AuthenticatedIsStoredUser | backend/src/main/java/com/fpt/hivtreatment/security/jwt/AuthTokenFilter.java:41-77 | an authenticated request is a stored, enabled user named by the token's subject, whose one authority is its role id |
| AuthTokenFilter.SecurityContext.constructor | backend/src/main/java/com/fpt/hivtreatment/security/jwt/AuthTokenFilter.java:77 | a fresh context holds no authentication |
| AuthTokenFilter.FilterChain.constructor | backend/src/main/java/com/fpt/hivtreatment/security/jwt/AuthTokenFilter.java:99 | a fresh chain has passed no request on |
| AuthTokenFilter.FilterChain.DoFilter | backend/src/main/java/com/fpt/hivtreatment/security/jwt/AuthTokenFilter.java:99 | passes the request on once more |
| AuthTokenFilter.DoFilterInternal | backend/src/main/java/com/fpt/hivtreatment/security/jwt/AuthTokenFilter.java:33-100 | sets the authentication when the token leads to a user, leaves the context as it was on every failure, and passes the request on exactly once |

## Left out

- The JWT library (token validation, reading the subject, generating a token), the password encoder and the authentication manager are outside the model; their results are parameters.
- Logging and console output, the DOM, `fetch` internals, `localStorage` and the SockJS/STOMP library are not modelled; the client's channel is a recorded log of calls.
- Concurrency is not modelled: interleavings of in-flight promises in the chat client, broker threading, and two transactions running at once.
- Transactions are modelled as all-or-nothing: an error path leaves every table unchanged. This holds even where the code writes before it throws, as `createPayment` does when it saves the payment before its size check.
- Exception message texts and response DTO fields that only repeat stored fields are not modelled; errors are their exception kind.
- Query results are in ascending key order. This stands in for database order in findAll, in repository finders and in paging ties.
- Chat messages "ordered by timestamp, newest first" are modelled as the reverse of save order.
- Money is an integer in whole currency units; BigDecimal scale is not modelled.
- Dates are parsed only in the four-digit-year `yyyy-MM-dd` form. Signed or longer years and the offset forms that `ISO_DATE` also accepts are not modelled.
- The floating-point weight conversion of medical records and the `Double` doses of the batch controller are not modelled.
- Audit timestamps are modelled where a modelled operation writes them: creation and update times of medical records, lab results, prescription items, reminders and protocols, and creation times of lab orders, record-result associations, payments, payment orders, prescriptions, medication reminders, conversations and chat messages. Not modelled are the `updatedAt` that the lab order's `@PreUpdate` hook sets, the conversation's `@LastModifiedDate`, and the audit columns of users, doctor schedules, appointment slots, appointments, test types, medications and protocol-medication mappings; no modelled contract reads them. Column lengths are not modelled either. NOT NULL constraints are taken from the entity annotations.
- AppointmentServiceImpl.java:68-81 has unresolved merge-conflict markers. The model takes the incoming branch (fd42c14): the patient is looked up only when a patient id is given and the booking is not anonymous.
- AuthTokenFilter.java:39-92 has merge-conflict markers. The two sides differ only in logging, and the model follows their common control flow; web-authentication details are not modelled.
- A foreign-key rejection when deleting a user that other rows reference is not modelled, nor case-insensitive database collation of usernames and emails, nor the user's profile image.
- The `@NotBlank` validation of the registration request is modelled as non-null fields; blank strings are not rejected.
- `getDoctorSchedules` receives a page request it never uses, and the model takes none.
- The `@PrePersist` hook of reminders stamps `createdAt` on every insert. The model follows it, so a `createdAt` supplied to `createReminder` is overwritten at the save.
- Payment getters (`getPaymentById`, `getPaymentsByPatientId`, `getAllPayments`), `convertToDTO` and `updateDoctorNotes` are straight repository reads or single setters, and are not modelled.
- Lab-test result pass-through finders, `saveLabTestResult` and `convertToDTO` (JSON through Jackson) are not modelled.
- Prescription finders by date range, the prescription statistics and the medical-record date queries are not modelled.
- Prescription pass-through finders (`findByPatientId`, `findByMedicalRecordId`, the `WithDetails` variants, `findActive`) and prescription-item finders by patient and by medication are not modelled.
- The unused `totalQuantity` column of prescription items is not modelled. `removePrescriptionItem` ignores its prescription id, and so does the model.
- `createMedicationReminder` for a single reminder is `SaveReminders` with a one-element list.
- A reminder whose patient does not exist (a foreign-key rejection), NOT NULL fields left null in the `createReminder` input, and a null time argument to `findByReminderTime` are not modelled.
- Treatment-protocol pass-throughs (`getAllProtocols`, `getProtocolById`, the category and indication finders, `deleteProtocol`) are not modelled. `saveProtocol` with a protocol id that has no row is modelled as an insert.
- PrescriptionItems.CalculateDailyTotal: adds unbounded integers and does not model Java `int` overflow of the sum.
- PrescriptionBatch.Committed, PrescriptionBatch.CreatedIff, PrescriptionBatch.SaveGroup, PrescriptionBatch.FailsAt, PrescriptionBatch.SavedAt, PrescriptionBatch.SaveStep, PrescriptionBatch.SavedNextGroup, PrescriptionBatch.SaveGroups, PrescriptionBatch.CreatePrescriptionsBatch: follow the corrected `MedicationReminders.PlanError`, so a group whose items have due doses is saved with its reminders. As written, every accepted group that has an object without `morningDose` fails (`PrescriptionBatch.FallbackDoseFailsAsWritten`), and so does any other group with a due dose. `SaveGroups` and `CreatePrescriptionsBatch` state the prescriptions and items they save row by row, but the reminders only through the `Rx.Linked` invariant; the reminders are specified row by row in `MedicationReminders`. The `HashMap` order of the groups is modelled as ascending medical-record id.
- Prescriptions.FreshItemsPlan, Prescriptions.SaveItemsWithReminders, Prescriptions.CreateFullPrescription, Prescriptions.AddError, Prescriptions.SingleItemPlan, Prescriptions.AddPrescriptionItem, Prescriptions.SaveItemWithReminders, Prescriptions.RemindersOrRollback, Prescriptions.GenerateMedicationReminders: follow the corrected `MedicationReminders.PlanError`, so items with due doses are saved with their reminders. As written, a due dose on a fresh item throws a null-pointer error (`Prescriptions.CreateFullFailsOnDueDose`, `MedicationReminders.LookupAsWrittenFresh`), and any due dose breaks the NOT NULL date columns (`MedicationReminders.MissingDatesFinding`).
- MedicationReminders.PlannedFor, MedicationReminders.Plan, MedicationReminders.PlanAttached, MedicationReminders.PlanReminders, MedicationReminders.SaveReminders, MedicationReminders.CreateRemindersFromPrescriptionItems: follow the corrected planning of the two Findings rows on MedicationReminderServiceImpl.java. Each reminder (built by the helper `ReminderFor`) carries the prescription's treatment start and end dates, which the code never sets, and the patient is read from the prescription row even for an item saved earlier in the same transaction. As written, every due dose fails: with a null-pointer error on a freshly saved item (`MedicationReminders.LookupAsWrittenFresh`, `MedicationReminders.UnloadedPrescriptionFinding`), otherwise on the NOT NULL date columns (`MedicationReminders.MissingDatesFinding`); `MedicationReminders.PlanErrorAsWritten` is that behaviour and `MedicationReminders.AsWrittenSavesNothing` shows that it stores no reminder. `MedReminderRow` start and end dates are plain dates, so a reminder with a null start or end date handed to `SaveReminders` cannot be expressed.
- Payments.CreatePayment: follows the corrected `Payments.CreatePaymentError`, so a null order-id list fails with IllegalArgumentException (or ResourceNotFoundException for an unknown patient). As written, the log line throws a null-pointer error first (`Payments.CreatePaymentErrorAsWritten`, `Payments.NullOrderListFinding`).
- Payments.ProcessPayment, PaymentController.ProcessPayment: follow the corrected `Payments.ProcessError`, so a null payment-method list fails with IllegalArgumentException and the controller answers 400. As written, the log line throws a null-pointer error first and the controller answers 500 (`Payments.ProcessErrorAsWritten`, `Payments.NullMethodsFinding`, `PaymentController.NullMethodsAnsweredAs`).
- PrescriptionBatch.LongOf, PrescriptionBatch.IntOf, PrescriptionBatch.ProtocolOf, UserManagement.RoleIdOf: the number parsers they use (`Text.ParseInteger`, `Text.ParseJavaInt`, `Text.ParseJavaLong`) accept ASCII digits only. Java's `Integer.parseInt` and `Long.valueOf` read each character with `Character.digit`, which also accepts the other Unicode decimal digits (such as Arabic-Indic or fullwidth digits); the model answers NumberFormatException for those, because the set of such digits depends on the Unicode version of the Java runtime, which the modelled sources do not fix.
- Text: its members stand for the Java and JavaScript library calls the code makes (`String.valueOf`, `Long.toString`, `Integer.parseInt`, `Long.valueOf`, `startsWith`, `contains`, `trim`, `equalsIgnoreCase`). They have no rows of their own; the rows of the members that use them cite the calls.
- Payments.PaymentEntity.AddPaymentOrder, Payments.PaymentEntity.RemovePaymentOrder: set membership uses reference identity, where Lombok `@Data` gives `Payment` and `PaymentOrder` field-based `equals` and `hashCode` that recurse through the back link. The model therefore does not capture that an order equal field by field to one already held is not added, that the hash is taken before `setPayment` changes the order, or that removing an order already linked back overflows the stack.
- AuthService.RegisterUser: stops at the save of the new user. The sign-in that follows is `AuthService.AuthenticateUser`.

## Findings

| source | as written | input that shows it | evidently intended | confidence | as-written member | corrected member |
|---|---|---|---|---|---|---|
| backend/src/main/java/com/fpt/hivtreatment/service/impl/PaymentServiceImpl.java:44 | the log line reads the size of the order-id list before the null check at lines 54-57 | a known patient with a null order-id list: NullPointerException | IllegalArgumentException from the null-or-empty check | not executed | Payments.CreatePaymentErrorAsWritten, Payments.NullOrderListFinding | Payments.CreatePaymentError |
| backend/src/main/java/com/fpt/hivtreatment/service/impl/PaymentServiceImpl.java:299-300 | the log line reads the size of the payment-method list before the null check at lines 306-308 | a payment request with a null method list: NullPointerException, which the controller answers with 500 | IllegalArgumentException, answered with 400 | not executed | Payments.ProcessErrorAsWritten, Payments.NullMethodsFinding, PaymentController.NullMethodsAnsweredAs | Payments.ProcessError |
| backend/src/main/java/com/fpt/hivtreatment/service/impl/MedicationReminderServiceImpl.java:90-101 | a created reminder never has its start and end dates set, and both columns are NOT NULL (MedicationReminder.java:49-53) | a stored item with a morning dose of 1: the save fails with DataIntegrityViolationException | reminders dated by the prescription's treatment dates, so that the save succeeds | not executed | MedicationReminders.PlanErrorAsWritten, MedicationReminders.MissingDatesFinding, MedicationReminders.AsWrittenSavesNothing | MedicationReminders.PlanError |
| backend/src/main/java/com/fpt/hivtreatment/service/impl/MedicationReminderServiceImpl.java:93 | the patient is read through the item's prescription object, which is null for an item saved earlier in the same transaction with only its prescription id set | an item created by `addPrescriptionItem` with a morning dose: NullPointerException | the patient of the prescription the item's id names | not executed | MedicationReminders.LookupAsWritten, MedicationReminders.LookupAsWrittenNone, MedicationReminders.LookupAsWrittenFresh, MedicationReminders.UnloadedPrescriptionFinding, Prescriptions.CreateFullErrorAsWritten, Prescriptions.CreateFullFailsOnDueDose, PrescriptionBatch.FallbackDoseFailsAsWritten | MedicationReminders.PlanError |
| backend/src/main/java/com/fpt/hivtreatment/service/impl/UserManagementServiceImpl.java:116-121 | with a search term, the count ignores the role and active filters that the list applies | a user matching the search whose role the filter excludes: counted, but not listed | the count equals the length of the filtered list | not executed | UserManagement.CountUsers, UserManagement.CountOverstatesList | UserManagement.CountUsersConsistent, UserManagement.ConsistentCountIsListLength |
