/** Anonymising one client of one business, with the statements of `anonymize_client_data`. */
module Anonymisation {
  import opened Basics

  const ANONYMIZED := "[anonymized]"
  const BY_PRIVACY := Some("privacy_subject_anonymized")

  // Every row type keeps in `rest` the columns that the operation never names: prices,
  // times, services, statuses, amounts, ratings.

  datatype Note = Note(business: int, client: int, text: string, archivedAt: Option<int>, rest: int)

  datatype Appointment = Appointment(business: int, client: int, comment: Option<string>, cancellation: Option<string>,
                                       rest: int)

  datatype History = History(appointment: int, reason: Option<string>, rest: int)

  datatype Review = Review(
    business: int, client: int, text: Option<string>, consent: bool, publishedAt: Option<int>,
    deletedAt: Option<int>, deletionReason: Option<string>, rest: int)

  datatype Revision = Revision(review: int, text: Option<string>, rest: int)

  datatype Media = Media(
    business: int, appointment: int, fileId: Option<string>, uniqueId: Option<string>,
    deletedAt: Option<int>, lastError: Option<string>, rest: int)

  datatype Payment = Payment(
    business: int, appointment: int, receiptId: Option<string>, receiptUniqueId: Option<string>,
    receiptType: Option<string>, receiptSize: Option<int>, receivedAt: Option<int>, expiresAt: Option<int>,
    rejection: Option<string>, rest: int)

  datatype Refund = Refund(business: int, payment: int, rest: int)

  datatype DeliveryStatus = Pending | Retry | Processing | Sent | Failed | Cancelled | Unsubscribed | Blocked

  /** A reminder, a broadcast recipient or a waitlist notification; `owner` is the receiving
      user, or the waitlist entry. */
  datatype Delivery = Delivery(
    business: int, owner: int, status: DeliveryStatus, lockedAt: Option<int>, lockedBy: Option<string>,
    lastError: Option<string>, rest: int)

  datatype EntryStatus = Waiting | Matched | BookedEntry | CancelledEntry | ExpiredEntry

  datatype Entry = Entry(business: int, client: int, status: EntryStatus, rest: int)

  datatype Tag = Tag(business: int, user: int, tag: int)

  datatype Attribution = Attribution(business: int, client: int, rest: int)

  datatype Staff = Staff(
    business: int, user: Option<int>, active: bool, bootstrapOwner: bool, displayName: string, bio: Option<string>,
    specialization: Option<string>, photo: Option<string>, photoUnique: Option<string>, settings: seq<string>,
    grants: seq<string>, rest: int)

  datatype Profile = Profile(
    business: int, staff: int, displayName: string, bio: Option<string>, photo: Option<string>,
    photoUnique: Option<string>, url: Option<string>, published: bool, updatedBy: Option<int>, rest: int)

  datatype Link = Link(business: int, profile: int, rest: int)

  datatype Invitation = Invitation(business: int, acceptedBy: Option<int>, displayName: string, rest: int)

  datatype Client = Client(business: int, user: int, active: bool, anonymizedAt: Option<int>, rest: int)

  datatype Role = ClientRole | OtherRole(role: int)

  datatype User = User(
    telegramId: int, username: Option<string>, firstName: Option<string>, lastName: Option<string>,
    phone: Option<string>, role: Role, privacyConsentAt: Option<int>, marketingConsentAt: Option<int>,
    unsubscribedAt: Option<int>, repeatOptOutAt: Option<int>, blocked: bool, selfBlocked: bool,
    selfBlockedAt: Option<int>, selfBlockedBy: Option<int>, selfBlockReason: Option<string>, rest: int)

  datatype Tables = Tables(
    notes: map<int, Note>, appointments: map<int, Appointment>, histories: map<int, History>,
    revisions: map<int, Revision>, reviews: map<int, Review>, media: map<int, Media>, payments: map<int, Payment>,
    refunds: map<int, Refund>, reminders: map<int, Delivery>, recipients: map<int, Delivery>,
    notices: map<int, Delivery>, entries: map<int, Entry>, tags: set<Tag>, attributions: map<int, Attribution>,
    links: map<int, Link>, profiles: map<int, Profile>, invitations: map<int, Invitation>, staff: map<int, Staff>,
    clients: map<int, Client>, users: map<int, User>)

  /** Whom to anonymise, where and when. */
  datatype Subject = Subject(business: int, client: int, user: int, at: int)

  // ---------------------------------------------------------------------------
  // Whose rows they are

  function AppointmentsOf(appointments: map<int, Appointment>, s: Subject): set<int> {
    set a | a in appointments && appointments[a].business == s.business && appointments[a].client == s.user
  }

  function ReviewsOf(reviews: map<int, Review>, s: Subject): set<int> {
    set r | r in reviews && reviews[r].business == s.business && reviews[r].client == s.user
  }

  function EntriesOf(entries: map<int, Entry>, s: Subject): set<int> {
    set e | e in entries && entries[e].business == s.business && entries[e].client == s.user
  }

  function PaymentsOf(payments: map<int, Payment>, appointments: set<int>, s: Subject): set<int> {
    set p | p in payments && payments[p].business == s.business && payments[p].appointment in appointments
  }

  /** Former staff records of the user, in any business. */
  function FormerStaff(staff: map<int, Staff>, s: Subject): set<int> {
    set m | m in staff && staff[m].user == Some(s.user) && !staff[m].active && !staff[m].bootstrapOwner
  }

  function ProfilesOf(profiles: map<int, Profile>, former: set<int>, s: Subject): set<int> {
    set p | p in profiles && profiles[p].business == s.business && profiles[p].staff in former
  }

  function NotesOf(notes: map<int, Note>, s: Subject): set<int> {
    set i | i in notes && notes[i].business == s.business && notes[i].client == s.user
  }

  function CommentedOf(appointments: map<int, Appointment>, s: Subject): set<int> {
    set a | a in AppointmentsOf(appointments, s)
            && (appointments[a].comment.Some? || appointments[a].cancellation.Some?)
  }

  function ReasonsOf(histories: map<int, History>, appointments: set<int>): set<int> {
    set i | i in histories && histories[i].appointment in appointments && histories[i].reason.Some?
  }

  function WordedOf(revisions: map<int, Revision>, reviews: set<int>): set<int> {
    set i | i in revisions && revisions[i].review in reviews && revisions[i].text.Some?
  }

  function FilesOf(media: map<int, Media>, appointments: set<int>, s: Subject): set<int> {
    set i | i in media && media[i].business == s.business && media[i].appointment in appointments
            && (media[i].fileId.Some? || media[i].uniqueId.Some?)
  }

  function ReceiptsOf(payments: map<int, Payment>, appointments: set<int>, s: Subject): set<int> {
    set p | p in PaymentsOf(payments, appointments, s)
            && (payments[p].receiptId.Some? || payments[p].receiptUniqueId.Some? || payments[p].rejection.Some?)
  }

  function UnsentTo(rows: map<int, Delivery>, owners: set<int>, stoppable: set<DeliveryStatus>, s: Subject): set<int> {
    set i | i in rows && rows[i].business == s.business && rows[i].owner in owners && rows[i].status in stoppable
  }

  function RefundsOf(refunds: map<int, Refund>, payments: set<int>, s: Subject): set<int> {
    set r | r in refunds && refunds[r].business == s.business && refunds[r].payment in payments
  }

  // ---------------------------------------------------------------------------
  // What each statement does to a row

  function NoteAfter(s: Subject, x: Note): Note {
    if x.business == s.business && x.client == s.user then x.(text := ANONYMIZED, archivedAt := Some(s.at)) else x
  }

  function AppointmentAfter(s: Subject, x: Appointment): Appointment {
    if x.business == s.business && x.client == s.user && (x.comment.Some? || x.cancellation.Some?)
    then x.(comment := None, cancellation := None) else x
  }

  function HistoryAfter(appointments: set<int>, x: History): History {
    if x.appointment in appointments && x.reason.Some? then x.(reason := Some(ANONYMIZED)) else x
  }

  function RevisionAfter(reviews: set<int>, x: Revision): Revision {
    if x.review in reviews && x.text.Some? then x.(text := None) else x
  }

  function ReviewAfter(s: Subject, x: Review): Review {
    if x.business == s.business && x.client == s.user
    then x.(text := None, consent := false, publishedAt := None, deletedAt := Some(s.at), deletionReason := None)
    else x
  }

  function FileAfter(s: Subject, appointments: set<int>, x: Media): Media {
    if x.business == s.business && x.appointment in appointments && (x.fileId.Some? || x.uniqueId.Some?)
    then x.(fileId := None, uniqueId := None, deletedAt := if x.deletedAt.Some? then x.deletedAt else Some(s.at),
            lastError := BY_PRIVACY)
    else x
  }

  function PaymentAfter(s: Subject, appointments: set<int>, x: Payment): Payment {
    if x.business == s.business && x.appointment in appointments
       && (x.receiptId.Some? || x.receiptUniqueId.Some? || x.rejection.Some?)
    then x.(receiptId := None, receiptUniqueId := None, receiptType := None, receiptSize := None, receivedAt := None,
            expiresAt := None, rejection := None)
    else x
  }

  function DeliveryAfter(s: Subject, owners: set<int>, stoppable: set<DeliveryStatus>, to: DeliveryStatus,
                         x: Delivery): Delivery
  {
    if x.business == s.business && x.owner in owners && x.status in stoppable
    then x.(status := to, lockedAt := None, lockedBy := None, lastError := BY_PRIVACY)
    else x
  }

  function EntryAfter(s: Subject, x: Entry): Entry {
    if x.business == s.business && x.client == s.user && (x.status == Waiting || x.status == Matched)
    then x.(status := CancelledEntry) else x
  }

  function ProfileAfter(s: Subject, staff: set<int>, x: Profile): Profile {
    if x.business == s.business && x.staff in staff
    then x.(displayName := ANONYMIZED, bio := None, photo := None, photoUnique := None, url := None, published := false,
            updatedBy := None)
    else x
  }

  function InvitationAfter(s: Subject, x: Invitation): Invitation {
    if x.business == s.business && x.acceptedBy == Some(s.user)
    then x.(displayName := ANONYMIZED, acceptedBy := None)
    else x
  }

  function MemberAfter(s: Subject, x: Staff): Staff {
    if x.user == Some(s.user) && !x.active && !x.bootstrapOwner
    then x.(user := None, displayName := ANONYMIZED, bio := None, specialization := None, photo := None,
            photoUnique := None, settings := [], grants := [])
    else x
  }

  function Tombstone(user: int): int { -0x4000_0000_0000_0000 + user }

  function UserAfter(s: Subject, x: User): User {
    User(Tombstone(s.user), None, None, None, None, ClientRole, None, None, Some(s.at), Some(s.at), true, true,
         Some(s.at), None, BY_PRIVACY, x.rest)
  }

  const UNSENT_REMINDERS := {Pending, Processing}
  const UNSENT := {Pending, Processing, Retry}

  predicate Belongs(t: Tables, s: Subject) {
    && s.client in t.clients && t.clients[s.client].business == s.business && t.clients[s.client].user == s.user
    && s.user in t.users
  }

  // ---------------------------------------------------------------------------
  // Each table afterwards, told from the tables before

  function NotesAfter(notes: map<int, Note>, s: Subject): map<int, Note> {
    map i | i in notes :: NoteAfter(s, notes[i])
  }

  function AppointmentsAfter(appointments: map<int, Appointment>, s: Subject): map<int, Appointment> {
    map i | i in appointments :: AppointmentAfter(s, appointments[i])
  }

  function HistoriesAfter(histories: map<int, History>, ids: set<int>): map<int, History> {
    map i | i in histories :: HistoryAfter(ids, histories[i])
  }

  function RevisionsAfter(revisions: map<int, Revision>, ids: set<int>): map<int, Revision> {
    map i | i in revisions :: RevisionAfter(ids, revisions[i])
  }

  function ReviewsAfter(reviews: map<int, Review>, s: Subject): map<int, Review> {
    map i | i in reviews :: ReviewAfter(s, reviews[i])
  }

  function MediaAfter(media: map<int, Media>, ids: set<int>, s: Subject): map<int, Media> {
    map i | i in media :: FileAfter(s, ids, media[i])
  }

  function PaymentsAfter(payments: map<int, Payment>, ids: set<int>, s: Subject): map<int, Payment> {
    map i | i in payments :: PaymentAfter(s, ids, payments[i])
  }

  function DeliveriesAfter(rows: map<int, Delivery>, owners: set<int>, stoppable: set<DeliveryStatus>,
                           to: DeliveryStatus, s: Subject): map<int, Delivery>
  {
    map i | i in rows :: DeliveryAfter(s, owners, stoppable, to, rows[i])
  }

  function EntriesAfter(entries: map<int, Entry>, s: Subject): map<int, Entry> {
    map i | i in entries :: EntryAfter(s, entries[i])
  }

  function TagsAfter(tags: set<Tag>, s: Subject): set<Tag> {
    set x | x in tags && !(x.business == s.business && x.user == s.user)
  }

  function AttributionsAfter(attributions: map<int, Attribution>, s: Subject): map<int, Attribution> {
    map i | i in attributions && !(attributions[i].business == s.business && attributions[i].client == s.client)
      :: attributions[i]
  }

  function LinksAfter(links: map<int, Link>, ids: set<int>, s: Subject): map<int, Link> {
    map i | i in links && !(links[i].business == s.business && links[i].profile in ids) :: links[i]
  }

  function ProfilesAfter(profiles: map<int, Profile>, former: set<int>, s: Subject): map<int, Profile> {
    map i | i in profiles :: ProfileAfter(s, former, profiles[i])
  }

  function InvitationsAfter(invitations: map<int, Invitation>, s: Subject): map<int, Invitation> {
    map i | i in invitations :: InvitationAfter(s, invitations[i])
  }

  function StaffAfter(staff: map<int, Staff>, s: Subject): map<int, Staff> {
    map i | i in staff :: MemberAfter(s, staff[i])
  }

  // The same sets, told from all tables.

  function OwnBookings(t: Tables, s: Subject): set<int> { AppointmentsOf(t.appointments, s) }

  function OwnPayments(t: Tables, s: Subject): set<int> { PaymentsOf(t.payments, OwnBookings(t, s), s) }

  function Former(t: Tables, s: Subject): set<int> { FormerStaff(t.staff, s) }

  function OwnProfiles(t: Tables, s: Subject): set<int> { ProfilesOf(t.profiles, Former(t, s), s) }

  function Anonymised(t: Tables, s: Subject): Tables
    requires Belongs(t, s)
  {
    Tables(
      NotesAfter(t.notes, s),
      AppointmentsAfter(t.appointments, s),
      HistoriesAfter(t.histories, OwnBookings(t, s)),
      RevisionsAfter(t.revisions, ReviewsOf(t.reviews, s)),
      ReviewsAfter(t.reviews, s),
      MediaAfter(t.media, OwnBookings(t, s), s),
      PaymentsAfter(t.payments, OwnBookings(t, s), s),
      t.refunds,
      DeliveriesAfter(t.reminders, {s.user}, UNSENT_REMINDERS, Cancelled, s),
      DeliveriesAfter(t.recipients, {s.user}, UNSENT, Unsubscribed, s),
      DeliveriesAfter(t.notices, EntriesOf(t.entries, s), UNSENT, Cancelled, s),
      EntriesAfter(t.entries, s),
      TagsAfter(t.tags, s),
      AttributionsAfter(t.attributions, s),
      LinksAfter(t.links, OwnProfiles(t, s), s),
      ProfilesAfter(t.profiles, Former(t, s), s),
      InvitationsAfter(t.invitations, s), StaffAfter(t.staff, s),
      t.clients[s.client := t.clients[s.client].(active := false, anonymizedAt := Some(s.at))],
      t.users[s.user := UserAfter(s, t.users[s.user])])
  }

  // ---------------------------------------------------------------------------
  // Nothing personal is left

  ghost predicate CommentsCleared(t: Tables, s: Subject) {
    && (forall i :: i in t.notes && t.notes[i].business == s.business && t.notes[i].client == s.user ==>
          t.notes[i].text == ANONYMIZED)
    && (forall a :: a in OwnBookings(t, s) ==> t.appointments[a].comment.None? && t.appointments[a].cancellation.None?)
    && (forall i :: i in t.histories && t.histories[i].appointment in OwnBookings(t, s) ==>
          t.histories[i].reason == None || t.histories[i].reason == Some(ANONYMIZED))
  }

  ghost predicate ReviewsCleared(t: Tables, s: Subject) {
    && (forall r :: r in ReviewsOf(t.reviews, s) ==>
          var x := t.reviews[r];
          x.text.None? && !x.consent && x.publishedAt.None? && x.deletedAt.Some? && x.deletionReason.None?)
    && (forall i :: i in t.revisions && t.revisions[i].review in ReviewsOf(t.reviews, s) ==> t.revisions[i].text.None?)
  }

  ghost predicate FilesCleared(t: Tables, s: Subject) {
    && (forall i :: i in t.media && t.media[i].business == s.business && t.media[i].appointment in OwnBookings(t, s) ==>
          t.media[i].fileId.None? && t.media[i].uniqueId.None?)
    && (forall p :: p in OwnPayments(t, s) ==>
          t.payments[p].receiptId.None? && t.payments[p].receiptUniqueId.None? && t.payments[p].rejection.None?)
  }

  /** Nothing more is sent to the user. */
  ghost predicate DeliveriesStopped(t: Tables, s: Subject) {
    && (forall i :: i in t.reminders && t.reminders[i].business == s.business && t.reminders[i].owner == s.user ==>
          t.reminders[i].status !in UNSENT_REMINDERS)
    && (forall i :: i in t.recipients && t.recipients[i].business == s.business && t.recipients[i].owner == s.user ==>
          t.recipients[i].status !in UNSENT)
    && (forall i ::
          i in t.notices && t.notices[i].business == s.business && t.notices[i].owner in EntriesOf(t.entries, s) ==>
          t.notices[i].status !in UNSENT)
    && (forall e :: e in EntriesOf(t.entries, s) ==> t.entries[e].status != Waiting && t.entries[e].status != Matched)
  }

  ghost predicate TracesRemoved(t: Tables, s: Subject) {
    && (forall x :: x in t.tags ==> !(x.business == s.business && x.user == s.user))
    && (forall i :: i in t.attributions ==>
          !(t.attributions[i].business == s.business && t.attributions[i].client == s.client))
    && (forall i :: i in t.invitations && t.invitations[i].business == s.business ==>
          t.invitations[i].acceptedBy != Some(s.user))
  }

  /** `former`, the user's former staff records, and their public profiles here tell nothing. */
  ghost predicate StaffForgotten(t: Tables, s: Subject, former: set<int>) {
    && Former(t, s) == {}
    && (forall m :: m in former && m in t.staff ==>
          var x := t.staff[m];
          x.user.None? && x.displayName == ANONYMIZED && x.bio.None? && x.specialization.None? && x.photo.None?
          && x.photoUnique.None? && x.settings == [] && x.grants == [])
    && (forall p :: p in t.profiles && t.profiles[p].business == s.business && t.profiles[p].staff in former ==>
          ProfileIsBlank(t.profiles[p]))
    && (forall i :: i in t.links && t.links[i].business == s.business && t.links[i].profile in t.profiles ==>
          var x := t.profiles[t.links[i].profile]; !(x.business == s.business && x.staff in former))
  }

  predicate ProfileIsBlank(x: Profile) {
    && x.displayName == ANONYMIZED && x.bio.None? && x.photo.None? && x.photoUnique.None? && x.url.None?
    && !x.published && x.updatedBy.None?
  }

  ghost predicate IdentityCleared(t: Tables, s: Subject) {
    && s.client in t.clients && !t.clients[s.client].active && t.clients[s.client].anonymizedAt.Some?
    && s.user in t.users
    && var x := t.users[s.user];
       && x.telegramId == Tombstone(s.user) && x.username.None? && x.firstName.None? && x.lastName.None?
       && x.phone.None?
       && x.role == ClientRole && x.privacyConsentAt.None? && x.marketingConsentAt.None? && x.unsubscribedAt.Some?
       && x.blocked && x.selfBlocked && x.selfBlockedBy.None?
  }

  /** The subject's rows are found by the same keys before and after. */
  lemma SameBookings(t: Tables, s: Subject, t': Tables)
    requires t'.appointments == AppointmentsAfter(t.appointments, s)
    ensures OwnBookings(t', s) == OwnBookings(t, s)
  {
    SameBookingIds(t.appointments, s);
  }

  lemma SameBookingIds(appointments: map<int, Appointment>, s: Subject)
    ensures AppointmentsOf(AppointmentsAfter(appointments, s), s) == AppointmentsOf(appointments, s)
  {
    assert forall a :: a in AppointmentsOf(AppointmentsAfter(appointments, s), s) <==>
             a in AppointmentsOf(appointments, s);
  }

  lemma SameReviews(t: Tables, s: Subject, t': Tables)
    requires t'.reviews == ReviewsAfter(t.reviews, s)
    ensures ReviewsOf(t'.reviews, s) == ReviewsOf(t.reviews, s)
  {
    assert forall r :: r in t.reviews ==> t'.reviews[r] == ReviewAfter(s, t.reviews[r]);
    assert forall r :: r in ReviewsOf(t'.reviews, s) <==> r in ReviewsOf(t.reviews, s);
  }

  lemma SameEntries(t: Tables, s: Subject, t': Tables)
    requires t'.entries == EntriesAfter(t.entries, s)
    ensures EntriesOf(t'.entries, s) == EntriesOf(t.entries, s)
  {
    assert forall e :: e in t.entries ==> t'.entries[e] == EntryAfter(s, t.entries[e]);
    assert forall e :: e in EntriesOf(t'.entries, s) <==> e in EntriesOf(t.entries, s);
  }

  lemma CommentsAreCleared(t: Tables, s: Subject, t': Tables)
    requires t'.notes == NotesAfter(t.notes, s) && t'.appointments == AppointmentsAfter(t.appointments, s)
    requires t'.histories == HistoriesAfter(t.histories, OwnBookings(t, s))
    ensures CommentsCleared(t', s)
  {
    SameBookings(t, s, t');
  }

  lemma ReviewsAreCleared(t: Tables, s: Subject, t': Tables)
    requires t'.reviews == ReviewsAfter(t.reviews, s)
    requires t'.revisions == RevisionsAfter(t.revisions, ReviewsOf(t.reviews, s))
    ensures ReviewsCleared(t', s)
  {
    SameReviews(t, s, t');
  }

  lemma FilesAreCleared(t: Tables, s: Subject, t': Tables)
    requires OwnBookings(t', s) == OwnBookings(t, s)
    requires t'.media == MediaAfter(t.media, OwnBookings(t, s), s)
    requires t'.payments == PaymentsAfter(t.payments, OwnBookings(t, s), s)
    ensures FilesCleared(t', s)
  {
  }

  lemma DeliveriesAreStopped(t: Tables, s: Subject, t': Tables)
    requires t'.reminders == DeliveriesAfter(t.reminders, {s.user}, UNSENT_REMINDERS, Cancelled, s)
    requires t'.recipients == DeliveriesAfter(t.recipients, {s.user}, UNSENT, Unsubscribed, s)
    requires t'.notices == DeliveriesAfter(t.notices, EntriesOf(t.entries, s), UNSENT, Cancelled, s)
    requires t'.entries == EntriesAfter(t.entries, s)
    ensures DeliveriesStopped(t', s)
  {
    SameEntries(t, s, t');
  }

  lemma TracesAreRemoved(t: Tables, s: Subject, t': Tables)
    requires t'.tags == TagsAfter(t.tags, s) && t'.attributions == AttributionsAfter(t.attributions, s)
    requires t'.invitations == InvitationsAfter(t.invitations, s)
    ensures TracesRemoved(t', s)
  {
  }

  lemma NoFormerStaffIsLeft(t: Tables, s: Subject, t': Tables)
    requires t'.staff == StaffAfter(t.staff, s)
    ensures Former(t', s) == {}
  {
    assert forall m :: m in t.staff ==> t'.staff[m] == MemberAfter(s, t.staff[m]);
    assert forall m :: m !in Former(t', s);
  }

  lemma StaffIsForgotten(t: Tables, s: Subject, t': Tables)
    requires t'.links == LinksAfter(t.links, OwnProfiles(t, s), s)
    requires t'.profiles == ProfilesAfter(t.profiles, Former(t, s), s) && t'.staff == StaffAfter(t.staff, s)
    ensures StaffForgotten(t', s, Former(t, s))
  {
    NoFormerStaffIsLeft(t, s, t');
    assert forall p :: p in t.profiles ==> t'.profiles[p] == ProfileAfter(s, Former(t, s), t.profiles[p]);
  }

  /** After the operation no free text, file, pending delivery, tag, profile or contact of the
      subject is left in this business. */
  lemma NothingPersonalIsLeft(t: Tables, s: Subject)
    requires Belongs(t, s)
    ensures var t' := Anonymised(t, s);
            && CommentsCleared(t', s) && ReviewsCleared(t', s) && FilesCleared(t', s) && DeliveriesStopped(t', s)
            && TracesRemoved(t', s) && StaffForgotten(t', s, Former(t, s)) && IdentityCleared(t', s)
  {
    var t' := Anonymised(t, s);
    hide CommentsCleared, ReviewsCleared, FilesCleared, DeliveriesStopped, TracesRemoved, StaffForgotten;
    CommentsAreCleared(t, s, t');
    ReviewsAreCleared(t, s, t');
    SameBookings(t, s, t');
    FilesAreCleared(t, s, t');
    DeliveriesAreStopped(t, s, t');
    TracesAreRemoved(t, s, t');
    StaffIsForgotten(t, s, t');
  }

  // ---------------------------------------------------------------------------
  // Row by row, in columns

  ghost predicate Booking(t: Tables, s: Subject, a: int) {
    a in t.appointments && t.appointments[a].business == s.business && t.appointments[a].client == s.user
  }

  ghost predicate Reviewed(t: Tables, s: Subject, r: int) {
    r in t.reviews && t.reviews[r].business == s.business && t.reviews[r].client == s.user
  }

  ghost predicate Waits(t: Tables, s: Subject, e: int) {
    e in t.entries && t.entries[e].business == s.business && t.entries[e].client == s.user
  }

  /** A former staff record of the user, in whatever business. */
  ghost predicate Left(t: Tables, s: Subject, m: int) {
    m in t.staff && t.staff[m].user == Some(s.user) && !t.staff[m].active && !t.staff[m].bootstrapOwner
  }

  ghost predicate HasFile(t: Tables, s: Subject, i: int) {
    && i in t.media && t.media[i].business == s.business && Booking(t, s, t.media[i].appointment)
    && (t.media[i].fileId != None || t.media[i].uniqueId != None)
  }

  ghost predicate Paid(t: Tables, s: Subject, p: int) {
    p in t.payments && t.payments[p].business == s.business && Booking(t, s, t.payments[p].appointment)
  }

  ghost predicate HasReceipt(t: Tables, s: Subject, p: int) {
    && Paid(t, s, p)
    && (t.payments[p].receiptId != None || t.payments[p].receiptUniqueId != None || t.payments[p].rejection != None)
  }

  ghost predicate Reminds(t: Tables, s: Subject, i: int) {
    && i in t.reminders && t.reminders[i].business == s.business && t.reminders[i].owner == s.user
    && (t.reminders[i].status == Pending || t.reminders[i].status == Processing)
  }

  ghost predicate Broadcasts(t: Tables, s: Subject, i: int) {
    && i in t.recipients && t.recipients[i].business == s.business && t.recipients[i].owner == s.user
    && (t.recipients[i].status == Pending || t.recipients[i].status == Processing || t.recipients[i].status == Retry)
  }

  ghost predicate Notifies(t: Tables, s: Subject, i: int) {
    && i in t.notices && t.notices[i].business == s.business && Waits(t, s, t.notices[i].owner)
    && (t.notices[i].status == Pending || t.notices[i].status == Processing || t.notices[i].status == Retry)
  }

  ghost predicate TextsErased(t: Tables, t': Tables, s: Subject) {
    && t'.notes.Keys == t.notes.Keys && t'.appointments.Keys == t.appointments.Keys
    && t'.histories.Keys == t.histories.Keys && t'.revisions.Keys == t.revisions.Keys
    && t'.reviews.Keys == t.reviews.Keys
    && (forall i :: i in t.notes ==>
          var x := t.notes[i];
          t'.notes[i] == if x.business == s.business && x.client == s.user
                         then Note(x.business, x.client, "[anonymized]", Some(s.at), x.rest) else x)
    && (forall a :: a in t.appointments ==>
          var x := t.appointments[a];
          t'.appointments[a] == if Booking(t, s, a) then Appointment(x.business, x.client, None, None, x.rest) else x)
    && (forall i :: i in t.histories ==>
          var x := t.histories[i];
          t'.histories[i] == if Booking(t, s, x.appointment) && x.reason != None
                             then History(x.appointment, Some("[anonymized]"), x.rest) else x)
    && (forall i :: i in t.revisions ==>
          var x := t.revisions[i];
          t'.revisions[i] == if Reviewed(t, s, x.review) then Revision(x.review, None, x.rest) else x)
    && (forall r :: r in t.reviews ==>
          var x := t.reviews[r];
          t'.reviews[r] == if Reviewed(t, s, r)
                           then Review(x.business, x.client, None, false, None, Some(s.at), None, x.rest) else x)
  }

  ghost predicate FilesErased(t: Tables, t': Tables, s: Subject) {
    && t'.media.Keys == t.media.Keys && t'.payments.Keys == t.payments.Keys && t'.refunds == t.refunds
    && (forall i :: i in t.media ==>
          var x := t.media[i];
          t'.media[i] == if HasFile(t, s, i)
                         then Media(x.business, x.appointment, None, None,
                                    if x.deletedAt == None then Some(s.at) else x.deletedAt,
                                    Some("privacy_subject_anonymized"), x.rest)
                         else x)
    && (forall p :: p in t.payments ==>
          var x := t.payments[p];
          t'.payments[p] == if HasReceipt(t, s, p)
                            then Payment(x.business, x.appointment, None, None, None, None, None, None, None, x.rest)
                            else x)
  }

  /** The delivery with its lock and its last error as a stopped one has them. */
  predicate StoppedAs(x: Delivery, y: Delivery, status: DeliveryStatus) {
    y == Delivery(x.business, x.owner, status, None, None, Some("privacy_subject_anonymized"), x.rest)
  }

  ghost predicate DeliveriesErased(t: Tables, t': Tables, s: Subject) {
    && t'.reminders.Keys == t.reminders.Keys && t'.recipients.Keys == t.recipients.Keys
    && t'.notices.Keys == t.notices.Keys && t'.entries.Keys == t.entries.Keys
    && (forall i :: i in t.reminders ==>
          if Reminds(t, s, i) then StoppedAs(t.reminders[i], t'.reminders[i], Cancelled)
          else t'.reminders[i] == t.reminders[i])
    && (forall i :: i in t.recipients ==>
          if Broadcasts(t, s, i) then StoppedAs(t.recipients[i], t'.recipients[i], Unsubscribed)
          else t'.recipients[i] == t.recipients[i])
    && (forall i :: i in t.notices ==>
          if Notifies(t, s, i) then StoppedAs(t.notices[i], t'.notices[i], Cancelled)
          else t'.notices[i] == t.notices[i])
    && (forall e :: e in t.entries ==>
          var x := t.entries[e];
          t'.entries[e] == if Waits(t, s, e) && (x.status == Waiting || x.status == Matched)
                           then Entry(x.business, x.client, CancelledEntry, x.rest) else x)
  }

  ghost predicate TracesErased(t: Tables, t': Tables, s: Subject) {
    && t'.invitations.Keys == t.invitations.Keys
    && (forall x :: x in t'.tags <==> x in t.tags && (x.business != s.business || x.user != s.user))
    && (forall i :: i in t'.attributions <==>
          i in t.attributions && (t.attributions[i].business != s.business || t.attributions[i].client != s.client))
    && (forall i :: i in t'.attributions ==> i in t.attributions && t'.attributions[i] == t.attributions[i])
    && (forall i :: i in t.invitations ==>
          var x := t.invitations[i];
          t'.invitations[i] == if x.business == s.business && x.acceptedBy == Some(s.user)
                               then Invitation(x.business, None, "[anonymized]", x.rest) else x)
  }

  /** The public profile, in the business, of a former staff record. */
  ghost predicate Presents(t: Tables, s: Subject, p: int) {
    p in t.profiles && t.profiles[p].business == s.business && Left(t, s, t.profiles[p].staff)
  }

  ghost predicate StaffErased(t: Tables, t': Tables, s: Subject) {
    && t'.profiles.Keys == t.profiles.Keys && t'.staff.Keys == t.staff.Keys
    && (forall i :: i in t'.links <==>
          i in t.links && (t.links[i].business != s.business || !Presents(t, s, t.links[i].profile)))
    && (forall i :: i in t'.links ==> i in t.links && t'.links[i] == t.links[i])
    && (forall p :: p in t.profiles ==>
          var x := t.profiles[p];
          t'.profiles[p] == if Presents(t, s, p)
                            then Profile(x.business, x.staff, "[anonymized]", None, None, None, None, false, None,
                                         x.rest)
                            else x)
    && (forall m :: m in t.staff ==>
          var x := t.staff[m];
          t'.staff[m] == if Left(t, s, m)
                         then Staff(x.business, None, x.active, x.bootstrapOwner, "[anonymized]", None, None, None,
                                    None, [], [], x.rest)
                         else x)
  }

  ghost predicate IdentityErased(t: Tables, t': Tables, s: Subject) {
    && t'.clients.Keys == t.clients.Keys && t'.users.Keys == t.users.Keys
    && (forall c :: c in t.clients ==>
          var x := t.clients[c];
          t'.clients[c] == if c == s.client then Client(x.business, x.user, false, Some(s.at), x.rest) else x)
    && (forall u :: u in t.users && u != s.user ==> t'.users[u] == t.users[u])
    && (s.user in t.users ==>
          var y := t'.users[s.user];
          && y.telegramId == s.user - 4611686018427387904
          && y.username == None && y.firstName == None && y.lastName == None && y.phone == None
          && y.role == ClientRole && y.privacyConsentAt == None && y.marketingConsentAt == None
          && y.unsubscribedAt == Some(s.at) && y.repeatOptOutAt == Some(s.at)
          && y.blocked && y.selfBlocked && y.selfBlockedAt == Some(s.at) && y.selfBlockedBy == None
          && y.selfBlockReason == Some("privacy_subject_anonymized") && y.rest == t.users[s.user].rest)
  }

  /** Every row of every table afterwards, told in columns from the row before. */
  ghost predicate Erased(t: Tables, t': Tables, s: Subject) {
    && TextsErased(t, t', s) && FilesErased(t, t', s) && DeliveriesErased(t, t', s) && TracesErased(t, t', s)
    && StaffErased(t, t', s) && IdentityErased(t, t', s)
  }

  lemma OwnIsBooking(t: Tables, s: Subject)
    ensures forall a :: a in OwnBookings(t, s) <==> Booking(t, s, a)
  {
  }

  lemma TextsAreErased(t: Tables, s: Subject, t': Tables)
    requires t'.notes == NotesAfter(t.notes, s) && t'.appointments == AppointmentsAfter(t.appointments, s)
    requires t'.histories == HistoriesAfter(t.histories, OwnBookings(t, s)) && t'.reviews == ReviewsAfter(t.reviews, s)
    requires t'.revisions == RevisionsAfter(t.revisions, ReviewsOf(t.reviews, s))
    ensures TextsErased(t, t', s)
  {
    OwnIsBooking(t, s);
    hide OwnBookings;
    assert forall r :: r in ReviewsOf(t.reviews, s) <==> Reviewed(t, s, r);
  }

  lemma FilesAreErased(t: Tables, s: Subject, t': Tables)
    requires t'.media == MediaAfter(t.media, OwnBookings(t, s), s) && t'.refunds == t.refunds
    requires t'.payments == PaymentsAfter(t.payments, OwnBookings(t, s), s)
    ensures FilesErased(t, t', s)
  {
    OwnIsBooking(t, s);
    hide OwnBookings;
  }

  lemma DeliveriesAreErased(t: Tables, s: Subject, t': Tables)
    requires t'.reminders == DeliveriesAfter(t.reminders, {s.user}, UNSENT_REMINDERS, Cancelled, s)
    requires t'.recipients == DeliveriesAfter(t.recipients, {s.user}, UNSENT, Unsubscribed, s)
    requires t'.notices == DeliveriesAfter(t.notices, EntriesOf(t.entries, s), UNSENT, Cancelled, s)
    requires t'.entries == EntriesAfter(t.entries, s)
    ensures DeliveriesErased(t, t', s)
  {
    assert forall e :: e in EntriesOf(t.entries, s) <==> Waits(t, s, e);
  }

  lemma TracesAreErased(t: Tables, s: Subject, t': Tables)
    requires t'.tags == TagsAfter(t.tags, s) && t'.attributions == AttributionsAfter(t.attributions, s)
    requires t'.invitations == InvitationsAfter(t.invitations, s)
    ensures TracesErased(t, t', s)
  {
  }

  lemma StaffIsErased(t: Tables, s: Subject, t': Tables)
    requires t'.links == LinksAfter(t.links, OwnProfiles(t, s), s) && t'.staff == StaffAfter(t.staff, s)
    requires t'.profiles == ProfilesAfter(t.profiles, Former(t, s), s)
    ensures StaffErased(t, t', s)
  {
    assert forall m :: m in Former(t, s) <==> Left(t, s, m);
    assert forall p :: p in OwnProfiles(t, s) <==> Presents(t, s, p);
    hide Former, OwnProfiles;
  }

  /** The operation writes exactly the columns it should, in exactly the rows it should. */
  lemma AnonymisedIsErased(t: Tables, s: Subject)
    requires Belongs(t, s)
    ensures Erased(t, Anonymised(t, s), s)
  {
    var t' := Anonymised(t, s);
    TextsAreErased(t, s, t');
    FilesAreErased(t, s, t');
    DeliveriesAreErased(t, s, t');
    TracesAreErased(t, s, t');
    StaffIsErased(t, s, t');
    hide TextsErased, FilesErased, DeliveriesErased, TracesErased, StaffErased;
  }

  // ---------------------------------------------------------------------------
  // Nothing else is changed

  /** Bookings, payments and refunds keep every column but the comments and the receipt. */
  lemma AmountsAreKept(t: Tables, s: Subject)
    requires Belongs(t, s)
    ensures var t' := Anonymised(t, s);
            && t'.appointments.Keys == t.appointments.Keys && t'.payments.Keys == t.payments.Keys
            && t'.refunds == t.refunds
            && (forall a :: a in t.appointments ==>
                  && t'.appointments[a] == t.appointments[a].(comment := t'.appointments[a].comment,
                                                              cancellation := t'.appointments[a].cancellation)
                  && (a !in OwnBookings(t, s) ==> t'.appointments[a] == t.appointments[a]))
            && (forall p :: p in t.payments ==>
                  && t'.payments[p].rest == t.payments[p].rest
                  && (p !in OwnPayments(t, s) ==> t'.payments[p] == t.payments[p]))
  {
  }

  /** Every row of `before` outside `own` is the same afterwards, and no row is new. */
  ghost predicate KeptExcept<V>(before: map<int, V>, after: map<int, V>, own: set<int>) {
    && (forall i :: i in after ==> i in before)
    && (forall i :: i in before && i !in own ==> i in after && after[i] == before[i])
  }

  ghost predicate TextsKept(t: Tables, t': Tables, s: Subject) {
    && KeptExcept(t.notes, t'.notes, NotesOf(t.notes, s))
    && KeptExcept(t.appointments, t'.appointments, OwnBookings(t, s))
    && KeptExcept(t.histories, t'.histories, ReasonsOf(t.histories, OwnBookings(t, s)))
    && KeptExcept(t.reviews, t'.reviews, ReviewsOf(t.reviews, s))
    && KeptExcept(t.revisions, t'.revisions, WordedOf(t.revisions, ReviewsOf(t.reviews, s)))
  }

  ghost predicate FilesKept(t: Tables, t': Tables, s: Subject) {
    && KeptExcept(t.media, t'.media, FilesOf(t.media, OwnBookings(t, s), s))
    && KeptExcept(t.payments, t'.payments, ReceiptsOf(t.payments, OwnBookings(t, s), s))
    && KeptExcept(t.refunds, t'.refunds, {})
  }

  ghost predicate DeliveriesKept(t: Tables, t': Tables, s: Subject) {
    && KeptExcept(t.reminders, t'.reminders, UnsentTo(t.reminders, {s.user}, UNSENT_REMINDERS, s))
    && KeptExcept(t.recipients, t'.recipients, UnsentTo(t.recipients, {s.user}, UNSENT, s))
    && KeptExcept(t.notices, t'.notices, UnsentTo(t.notices, EntriesOf(t.entries, s), UNSENT, s))
    && KeptExcept(t.entries, t'.entries, EntriesOf(t.entries, s))
  }

  ghost predicate TracesKept(t: Tables, t': Tables, s: Subject) {
    && (forall x :: x in t'.tags ==> x in t.tags)
    && (forall x :: x in t.tags && (x.business != s.business || x.user != s.user) ==> x in t'.tags)
    && KeptExcept(t.attributions, t'.attributions, set i | i in t.attributions
         && t.attributions[i].business == s.business && t.attributions[i].client == s.client)
    && KeptExcept(t.invitations, t'.invitations, set i | i in t.invitations
         && t.invitations[i].business == s.business && t.invitations[i].acceptedBy == Some(s.user))
  }

  ghost predicate StaffKept(t: Tables, t': Tables, s: Subject) {
    && KeptExcept(t.links, t'.links, set i | i in t.links
         && t.links[i].business == s.business && t.links[i].profile in OwnProfiles(t, s))
    && KeptExcept(t.profiles, t'.profiles, OwnProfiles(t, s))
    && KeptExcept(t.staff, t'.staff, Former(t, s))
  }

  /** In every table, rows that are not the subject's own are untouched, and nothing is added. */
  lemma OthersAreKept(t: Tables, s: Subject)
    requires Belongs(t, s)
    ensures var t' := Anonymised(t, s);
            && TextsKept(t, t', s) && FilesKept(t, t', s) && DeliveriesKept(t, t', s) && TracesKept(t, t', s)
            && StaffKept(t, t', s) && KeptExcept(t.clients, t'.clients, {s.client})
            && KeptExcept(t.users, t'.users, {s.user})
  {
    var t' := Anonymised(t, s);
    TextsAreKept(t, s, t');
    DeliveriesAreKept(t, s, t');
    TracesAreKept(t, s, t');
    StaffIsKept(t, s, t');
    hide TextsKept, DeliveriesKept, TracesKept, StaffKept;
  }

  lemma TextsAreKept(t: Tables, s: Subject, t': Tables)
    requires t'.notes == NotesAfter(t.notes, s) && t'.appointments == AppointmentsAfter(t.appointments, s)
    requires t'.histories == HistoriesAfter(t.histories, OwnBookings(t, s)) && t'.reviews == ReviewsAfter(t.reviews, s)
    requires t'.revisions == RevisionsAfter(t.revisions, ReviewsOf(t.reviews, s))
    ensures TextsKept(t, t', s)
  {
  }

  lemma DeliveriesAreKept(t: Tables, s: Subject, t': Tables)
    requires t'.reminders == DeliveriesAfter(t.reminders, {s.user}, UNSENT_REMINDERS, Cancelled, s)
    requires t'.recipients == DeliveriesAfter(t.recipients, {s.user}, UNSENT, Unsubscribed, s)
    requires t'.notices == DeliveriesAfter(t.notices, EntriesOf(t.entries, s), UNSENT, Cancelled, s)
    requires t'.entries == EntriesAfter(t.entries, s)
    ensures DeliveriesKept(t, t', s)
  {
  }

  lemma TracesAreKept(t: Tables, s: Subject, t': Tables)
    requires t'.tags == TagsAfter(t.tags, s) && t'.attributions == AttributionsAfter(t.attributions, s)
    requires t'.invitations == InvitationsAfter(t.invitations, s)
    ensures TracesKept(t, t', s)
  {
  }

  lemma StaffIsKept(t: Tables, s: Subject, t': Tables)
    requires t'.links == LinksAfter(t.links, OwnProfiles(t, s), s) && t'.staff == StaffAfter(t.staff, s)
    requires t'.profiles == ProfilesAfter(t.profiles, Former(t, s), s)
    ensures StaffKept(t, t', s)
  {
  }

  /** The check constraint `active_identifiers_present`. */
  predicate MediaCheck(x: Media) { x.deletedAt.Some? || (x.fileId.Some? && x.uniqueId.Some?) }

  lemma MediaCheckIsKept(t: Tables, s: Subject)
    requires Belongs(t, s) && forall i :: i in t.media ==> MediaCheck(t.media[i])
    ensures forall i :: i in Anonymised(t, s).media ==> MediaCheck(Anonymised(t, s).media[i])
    ensures forall i :: i in t.media && t.media[i].deletedAt.Some? ==>
              Anonymised(t, s).media[i].deletedAt == t.media[i].deletedAt
  {
    var t' := Anonymised(t, s);
    assert forall i :: i in t.media ==> t'.media[i] == FileAfter(s, OwnBookings(t, s), t.media[i]);
  }

  ghost predicate TelegramIdsUnique(users: map<int, User>) {
    forall u, v :: u in users && v in users && u != v ==> users[u].telegramId != users[v].telegramId
  }

  /** The unique index on Telegram ids survives exactly when nobody else has the tombstone. */
  lemma TelegramIdsStayUniqueIff(t: Tables, s: Subject)
    requires Belongs(t, s) && TelegramIdsUnique(t.users)
    ensures TelegramIdsUnique(Anonymised(t, s).users) <==>
              forall u :: u in t.users && u != s.user ==> t.users[u].telegramId != Tombstone(s.user)
  {
    var after := Anonymised(t, s).users;
    forall u | u in t.users && u != s.user
      ensures after[u] == t.users[u] && after[s.user].telegramId == Tombstone(s.user)
    {
    }
  }

  /** Users are numbered by a positive 62-bit serial; an identity is Telegram's own positive id
      or the user's own tombstone. */
  ghost predicate Identities(users: map<int, User>) {
    && TelegramIdsUnique(users)
    && forall u :: u in users ==>
         0 < u < 0x4000_0000_0000_0000 && (users[u].telegramId > 0 || users[u].telegramId == Tombstone(u))
  }

  /** However many clients are anonymised, Telegram ids stay unique. */
  lemma IdentitiesAreKept(t: Tables, s: Subject)
    requires Belongs(t, s) && Identities(t.users)
    ensures Identities(Anonymised(t, s).users)
  {
    TelegramIdsStayUniqueIff(t, s);
  }

  // ---------------------------------------------------------------------------
  // A second run

  /** The timestamps a later run writes again. */
  function Restamped(t: Tables, s: Subject): Tables
    requires Belongs(t, s)
  {
    t.(notes := map i | i in t.notes ::
         if t.notes[i].business == s.business && t.notes[i].client == s.user
         then t.notes[i].(archivedAt := Some(s.at)) else t.notes[i],
       reviews := map i | i in t.reviews ::
         if t.reviews[i].business == s.business && t.reviews[i].client == s.user
         then t.reviews[i].(deletedAt := Some(s.at)) else t.reviews[i],
       clients := t.clients[s.client := t.clients[s.client].(anonymizedAt := Some(s.at))],
       users := t.users[s.user := t.users[s.user].(unsubscribedAt := Some(s.at), repeatOptOutAt := Some(s.at),
                                                   selfBlockedAt := Some(s.at))])
  }

  lemma SameMap<V>(a: map<int, V>, b: map<int, V>)
    requires a.Keys == b.Keys && forall i :: i in a ==> a[i] == b[i]
    ensures a == b
  {
    assert forall i | i in a.Keys :: a[i] == b[i];
  }

  lemma CommentsAgain(t: Tables, s: Subject, t': Tables, again: Subject)
    requires again == s.(at := again.at) && t'.appointments == AppointmentsAfter(t.appointments, s)
    requires t'.histories == HistoriesAfter(t.histories, OwnBookings(t, s))
    ensures AppointmentsAfter(t'.appointments, again) == t'.appointments
    ensures HistoriesAfter(t'.histories, OwnBookings(t', again)) == t'.histories
  {
    SameBookings(t, s, t');
    assert OwnBookings(t', again) == OwnBookings(t', s);
    SameMap(AppointmentsAfter(t'.appointments, again), t'.appointments);
    SameMap(HistoriesAfter(t'.histories, OwnBookings(t', again)), t'.histories);
  }

  lemma RevisionsAgain(t: Tables, s: Subject, t': Tables, again: Subject)
    requires again == s.(at := again.at) && t'.reviews == ReviewsAfter(t.reviews, s)
    requires t'.revisions == RevisionsAfter(t.revisions, ReviewsOf(t.reviews, s))
    ensures RevisionsAfter(t'.revisions, ReviewsOf(t'.reviews, again)) == t'.revisions
  {
    SameReviews(t, s, t');
    assert ReviewsOf(t'.reviews, again) == ReviewsOf(t'.reviews, s);
    SameMap(RevisionsAfter(t'.revisions, ReviewsOf(t'.reviews, again)), t'.revisions);
  }

  lemma FilesAgain(t: Tables, s: Subject, t': Tables, again: Subject)
    requires again == s.(at := again.at) && t'.appointments == AppointmentsAfter(t.appointments, s)
    requires t'.media == MediaAfter(t.media, OwnBookings(t, s), s)
    requires t'.payments == PaymentsAfter(t.payments, OwnBookings(t, s), s)
    ensures MediaAfter(t'.media, OwnBookings(t', again), again) == t'.media
    ensures PaymentsAfter(t'.payments, OwnBookings(t', again), again) == t'.payments
  {
    SameBookings(t, s, t');
    assert OwnBookings(t', again) == OwnBookings(t', s);
    SameMap(MediaAfter(t'.media, OwnBookings(t', again), again), t'.media);
    SameMap(PaymentsAfter(t'.payments, OwnBookings(t', again), again), t'.payments);
  }

  lemma DeliveryAgain(s: Subject, again: Subject, owners: set<int>, stoppable: set<DeliveryStatus>, to: DeliveryStatus,
                      x: Delivery)
    requires again == s.(at := again.at) && to !in stoppable
    ensures DeliveryAfter(again, owners, stoppable, to, DeliveryAfter(s, owners, stoppable, to, x))
              == DeliveryAfter(s, owners, stoppable, to, x)
  {
  }

  lemma DeliveriesAgain(t: Tables, s: Subject, t': Tables, again: Subject)
    requires again == s.(at := again.at)
    requires t'.reminders == DeliveriesAfter(t.reminders, {s.user}, UNSENT_REMINDERS, Cancelled, s)
    requires t'.recipients == DeliveriesAfter(t.recipients, {s.user}, UNSENT, Unsubscribed, s)
    ensures DeliveriesAfter(t'.reminders, {again.user}, UNSENT_REMINDERS, Cancelled, again) == t'.reminders
    ensures DeliveriesAfter(t'.recipients, {again.user}, UNSENT, Unsubscribed, again) == t'.recipients
  {
    hide DeliveryAfter;
    forall i | i in t.reminders
      ensures DeliveriesAfter(t'.reminders, {again.user}, UNSENT_REMINDERS, Cancelled, again)[i] == t'.reminders[i]
    {
      DeliveryAgain(s, again, {s.user}, UNSENT_REMINDERS, Cancelled, t.reminders[i]);
    }
    forall i | i in t.recipients
      ensures DeliveriesAfter(t'.recipients, {again.user}, UNSENT, Unsubscribed, again)[i] == t'.recipients[i]
    {
      DeliveryAgain(s, again, {s.user}, UNSENT, Unsubscribed, t.recipients[i]);
    }
    SameMap(DeliveriesAfter(t'.reminders, {again.user}, UNSENT_REMINDERS, Cancelled, again), t'.reminders);
    SameMap(DeliveriesAfter(t'.recipients, {again.user}, UNSENT, Unsubscribed, again), t'.recipients);
  }

  lemma NoticesAgain(t: Tables, s: Subject, t': Tables, again: Subject)
    requires again == s.(at := again.at)
    requires t'.notices == DeliveriesAfter(t.notices, EntriesOf(t.entries, s), UNSENT, Cancelled, s)
    requires t'.entries == EntriesAfter(t.entries, s)
    ensures DeliveriesAfter(t'.notices, EntriesOf(t'.entries, again), UNSENT, Cancelled, again) == t'.notices
    ensures EntriesAfter(t'.entries, again) == t'.entries
  {
    SameEntries(t, s, t');
    assert EntriesOf(t'.entries, again) == EntriesOf(t'.entries, s);
    hide DeliveryAfter;
    forall i | i in t.notices
      ensures DeliveriesAfter(t'.notices, EntriesOf(t'.entries, again), UNSENT, Cancelled, again)[i] == t'.notices[i]
    {
      DeliveryAgain(s, again, EntriesOf(t.entries, s), UNSENT, Cancelled, t.notices[i]);
    }
    SameMap(DeliveriesAfter(t'.notices, EntriesOf(t'.entries, again), UNSENT, Cancelled, again), t'.notices);
    SameMap(EntriesAfter(t'.entries, again), t'.entries);
  }

  lemma TracesAgain(t: Tables, s: Subject, t': Tables, again: Subject)
    requires again == s.(at := again.at)
    requires t'.tags == TagsAfter(t.tags, s) && t'.attributions == AttributionsAfter(t.attributions, s)
    requires t'.invitations == InvitationsAfter(t.invitations, s)
    ensures TagsAfter(t'.tags, again) == t'.tags && AttributionsAfter(t'.attributions, again) == t'.attributions
    ensures InvitationsAfter(t'.invitations, again) == t'.invitations
  {
    SameMap(AttributionsAfter(t'.attributions, again), t'.attributions);
    SameMap(InvitationsAfter(t'.invitations, again), t'.invitations);
  }

  /** With no former staff record left to find, the profile statements change nothing. */
  lemma ProfilesNeedTheStaffRecord(t: Tables, s: Subject)
    requires Former(t, s) == {}
    ensures ProfilesAfter(t.profiles, Former(t, s), s) == t.profiles
    ensures LinksAfter(t.links, OwnProfiles(t, s), s) == t.links && StaffAfter(t.staff, s) == t.staff
  {
    assert OwnProfiles(t, s) == {};
    forall m | m in t.staff ensures MemberAfter(s, t.staff[m]) == t.staff[m] {
      assert m !in Former(t, s);
    }
    SameMap(ProfilesAfter(t.profiles, Former(t, s), s), t.profiles);
    SameMap(LinksAfter(t.links, OwnProfiles(t, s), s), t.links);
    SameMap(StaffAfter(t.staff, s), t.staff);
  }

  lemma StampedAgain(t: Tables, s: Subject, t': Tables, again: Subject)
    requires again == s.(at := again.at) && t'.notes == NotesAfter(t.notes, s)
    requires t'.reviews == ReviewsAfter(t.reviews, s)
    requires Belongs(t', again)
    ensures NotesAfter(t'.notes, again) == Restamped(t', again).notes
    ensures ReviewsAfter(t'.reviews, again) == Restamped(t', again).reviews
    ensures again == s ==> NotesAfter(t'.notes, again) == t'.notes && ReviewsAfter(t'.reviews, again) == t'.reviews
  {
    SameMap(NotesAfter(t'.notes, again), Restamped(t', again).notes);
    SameMap(ReviewsAfter(t'.reviews, again), Restamped(t', again).reviews);
    if again == s {
      SameMap(NotesAfter(t'.notes, again), t'.notes);
      SameMap(ReviewsAfter(t'.reviews, again), t'.reviews);
    }
  }

  /** A second run changes nothing but timestamps; at the same instant it changes nothing. */
  lemma SecondRunOnlyRestamps(t: Tables, s: Subject, again: Subject)
    requires Belongs(t, s) && again == s.(at := again.at)
    ensures Belongs(Anonymised(t, s), again)
    ensures Anonymised(Anonymised(t, s), again) == Restamped(Anonymised(t, s), again)
    ensures again == s ==> Anonymised(Anonymised(t, s), again) == Anonymised(t, s)
  {
    var t' := Anonymised(t, s);
    CommentsAgain(t, s, t', again);
    RevisionsAgain(t, s, t', again);
    FilesAgain(t, s, t', again);
    DeliveriesAgain(t, s, t', again);
    NoticesAgain(t, s, t', again);
    TracesAgain(t, s, t', again);
    NoFormerStaffIsLeft(t, s, t');
    assert Former(t', again) == Former(t', s);
    ProfilesNeedTheStaffRecord(t', again);
    StampedAgain(t, s, t', again);
  }

  // ---------------------------------------------------------------------------
  // The order of the statements, and other businesses

  /** Unbinding the staff records first would leave every profile and link as it was. */
  lemma UnbindingFirstLosesTheProfiles(t: Tables, s: Subject)
    ensures var unbound := t.(staff := StaffAfter(t.staff, s));
            && ProfilesAfter(unbound.profiles, Former(unbound, s), s) == t.profiles
            && LinksAfter(unbound.links, OwnProfiles(unbound, s), s) == t.links
  {
    var unbound := t.(staff := StaffAfter(t.staff, s));
    NoFormerStaffIsLeft(t, s, unbound);
    ProfilesNeedTheStaffRecord(unbound, s);
  }

  /** Staff records are unbound in every business, profiles blanked in this one: the profile of a
      former staff record is blank afterwards exactly when it lies in this business or was blank
      already, and no later run for the user finds the others. */
  lemma ProfileIsBlankIff(t: Tables, s: Subject, p: int)
    requires Belongs(t, s) && p in t.profiles && t.profiles[p].staff in Former(t, s)
    ensures ProfileIsBlank(Anonymised(t, s).profiles[p]) <==>
              t.profiles[p].business == s.business || ProfileIsBlank(t.profiles[p])
    ensures forall later: Subject :: later.user == s.user ==> FormerStaff(Anonymised(t, s).staff, later) == {}
  {
    var t' := Anonymised(t, s);
    NoFormerStaffIsLeft(t, s, t');
    forall later: Subject | later.user == s.user ensures Former(t', later) == {} {
      assert Former(t', later) == Former(t', s);
    }
  }

  function Elsewhere(): Tables {
    Tables(
      map[], map[], map[], map[], map[], map[], map[], map[], map[], map[], map[], map[], {}, map[], map[],
      map[4 := Profile(2, 3, "Anna", Some("Hair stylist"), None, None, None, true, None, 0)], map[],
      map[3 := Staff(2, Some(7), false, false, "Anna", None, None, None, None, [], [], 0)],
      map[5 := Client(1, 7, true, None, 0), 6 := Client(2, 7, false, None, 0)],
      map[7 := User(70, None, Some("Anna"), None, None, ClientRole, None, None, None, None, false, false, None, None,
                    None, 0)])
  }

  /** Someone who once worked in business 2 is anonymised as a client of business 1: her published
      profile in business 2 keeps her name, and not even anonymising her there finds it again. */
  lemma ProfileElsewhereStays()
    ensures var t, here, there := Elsewhere(), Subject(1, 5, 7, 0), Subject(2, 6, 7, 1);
            && Belongs(t, here) && Belongs(t, there) && 3 in Former(t, here)
            && var t' := Anonymised(t, here);
               && Belongs(t', there)
               && t'.staff[3].user == None && t'.profiles[4].displayName == "Anna" && t'.profiles[4].published
               && Anonymised(t', there).profiles == t'.profiles
  {
    var t, here, there := Elsewhere(), Subject(1, 5, 7, 0), Subject(2, 6, 7, 1);
    ProfileIsBlankIff(t, here, 4);
    ProfilesNeedTheStaffRecord(Anonymised(t, here), there);
  }

  // ---------------------------------------------------------------------------
  // The operation

  /** What the operation reports. */
  datatype Counts = Counts(
    identities: nat, notes: nat, comments: nat, reviews: nat, files: nat, deliveries: nat, bookingsRetained: nat,
    financialsRetained: nat)

  function CountsOf(t: Tables, s: Subject): Counts {
    var appointments := OwnBookings(t, s);
    var reviews := ReviewsOf(t.reviews, s);
    var payments := PaymentsOf(t.payments, appointments, s);
    Counts(
      2, |NotesOf(t.notes, s)|, |CommentedOf(t.appointments, s)| + |ReasonsOf(t.histories, appointments)|,
      |reviews| + |WordedOf(t.revisions, reviews)|,
      |FilesOf(t.media, appointments, s)| + |ReceiptsOf(t.payments, appointments, s)|,
      |UnsentTo(t.reminders, {s.user}, UNSENT_REMINDERS, s)| + |UnsentTo(t.recipients, {s.user}, UNSENT, s)|
        + |UnsentTo(t.notices, EntriesOf(t.entries, s), UNSENT, s)|,
      |appointments|, |payments| + |RefundsOf(t.refunds, payments, s)|)
  }

  ghost predicate TextCountsTell(t: Tables, s: Subject, c: Counts) {
    && c.notes == |set i | i in t.notes && t.notes[i].business == s.business && t.notes[i].client == s.user|
    && c.comments ==
         |set a | a in t.appointments && Booking(t, s, a)
                  && (t.appointments[a].comment != None || t.appointments[a].cancellation != None)|
         + |set i | i in t.histories && Booking(t, s, t.histories[i].appointment) && t.histories[i].reason != None|
    && c.reviews ==
         |set r | r in t.reviews && Reviewed(t, s, r)|
         + |set i | i in t.revisions && Reviewed(t, s, t.revisions[i].review) && t.revisions[i].text != None|
  }

  ghost predicate OtherCountsTell(t: Tables, s: Subject, c: Counts) {
    && c.identities == 2
    && c.files == |set i | i in t.media && HasFile(t, s, i)| + |set p | p in t.payments && HasReceipt(t, s, p)|
    && c.deliveries ==
         |set i | i in t.reminders && Reminds(t, s, i)| + |set i | i in t.recipients && Broadcasts(t, s, i)|
         + |set i | i in t.notices && Notifies(t, s, i)|
    && c.bookingsRetained == |set a | a in t.appointments && Booking(t, s, a)|
    && c.financialsRetained ==
         |set p | p in t.payments && Paid(t, s, p)|
         + |set r | r in t.refunds && t.refunds[r].business == s.business && Paid(t, s, t.refunds[r].payment)|
  }

  lemma TextCounts(t: Tables, s: Subject)
    ensures TextCountsTell(t, s, CountsOf(t, s))
  {
    assert NotesOf(t.notes, s) ==
      set i | i in t.notes && t.notes[i].business == s.business && t.notes[i].client == s.user;
    assert forall a :: a in CommentedOf(t.appointments, s) <==>
      Booking(t, s, a) && (t.appointments[a].comment != None || t.appointments[a].cancellation != None);
    assert CommentedOf(t.appointments, s) ==
      set a | a in t.appointments && Booking(t, s, a)
              && (t.appointments[a].comment != None || t.appointments[a].cancellation != None);
    assert ReasonsOf(t.histories, OwnBookings(t, s)) ==
      set i | i in t.histories && Booking(t, s, t.histories[i].appointment) && t.histories[i].reason != None;
    assert ReviewsOf(t.reviews, s) == set r | r in t.reviews && Reviewed(t, s, r);
    assert WordedOf(t.revisions, ReviewsOf(t.reviews, s)) ==
      set i | i in t.revisions && Reviewed(t, s, t.revisions[i].review) && t.revisions[i].text != None;
  }

  lemma OtherCounts(t: Tables, s: Subject)
    ensures OtherCountsTell(t, s, CountsOf(t, s))
  {
    assert OwnBookings(t, s) == set a | a in t.appointments && Booking(t, s, a);
    assert FilesOf(t.media, OwnBookings(t, s), s) == set i | i in t.media && HasFile(t, s, i);
    ReceiptCount(t, s);
    assert PaymentsOf(t.payments, OwnBookings(t, s), s) == set p | p in t.payments && Paid(t, s, p);
    assert RefundsOf(t.refunds, PaymentsOf(t.payments, OwnBookings(t, s), s), s) ==
      set r | r in t.refunds && t.refunds[r].business == s.business && Paid(t, s, t.refunds[r].payment);
    DeliveryCounts(t, s);
  }

  lemma ReceiptCount(t: Tables, s: Subject)
    ensures ReceiptsOf(t.payments, OwnBookings(t, s), s) == set p | p in t.payments && HasReceipt(t, s, p)
  {
    OwnIsBooking(t, s);
    hide OwnBookings, Booking;
    var selected, told := ReceiptsOf(t.payments, OwnBookings(t, s), s), set p | p in t.payments && HasReceipt(t, s, p);
    assert forall p :: p in selected <==> p in told;
  }

  lemma DeliveryCounts(t: Tables, s: Subject)
    ensures UnsentTo(t.reminders, {s.user}, UNSENT_REMINDERS, s) == set i | i in t.reminders && Reminds(t, s, i)
    ensures UnsentTo(t.recipients, {s.user}, UNSENT, s) == set i | i in t.recipients && Broadcasts(t, s, i)
    ensures UnsentTo(t.notices, EntriesOf(t.entries, s), UNSENT, s) == set i | i in t.notices && Notifies(t, s, i)
  {
    assert forall e :: e in EntriesOf(t.entries, s) <==> Waits(t, s, e);
  }

  /** The tables and the report after the operation, in columns of the tables before. */
  ghost predicate Told(t: Tables, t': Tables, s: Subject, c: Counts) {
    Erased(t, t', s) && TextCountsTell(t, s, c) && OtherCountsTell(t, s, c)
  }

  lemma AnonymisedIsTold(t: Tables, s: Subject)
    requires Belongs(t, s)
    ensures Told(t, Anonymised(t, s), s, CountsOf(t, s))
  {
    hide Anonymised, CountsOf, Erased, TextCountsTell, OtherCountsTell;
    AnonymisedIsErased(t, s);
    TextCounts(t, s);
    OtherCounts(t, s);
  }

  lemma NoneUnsent(rows: map<int, Delivery>, owners: set<int>, stoppable: set<DeliveryStatus>, to: DeliveryStatus,
                   s: Subject)
    requires to !in stoppable
    ensures UnsentTo(DeliveriesAfter(rows, owners, stoppable, to, s), owners, stoppable, s) == {}
  {
    assert forall i :: i !in UnsentTo(DeliveriesAfter(rows, owners, stoppable, to, s), owners, stoppable, s);
  }

  lemma NoFiles(media: map<int, Media>, payments: map<int, Payment>, ids: set<int>, s: Subject)
    ensures FilesOf(MediaAfter(media, ids, s), ids, s) == {}
    ensures ReceiptsOf(PaymentsAfter(payments, ids, s), ids, s) == {}
    ensures PaymentsOf(PaymentsAfter(payments, ids, s), ids, s) == PaymentsOf(payments, ids, s)
  {
    assert forall i :: i !in FilesOf(MediaAfter(media, ids, s), ids, s);
    assert forall i :: i !in ReceiptsOf(PaymentsAfter(payments, ids, s), ids, s);
    assert forall i :: i in PaymentsOf(PaymentsAfter(payments, ids, s), ids, s) <==> i in PaymentsOf(payments, ids, s);
  }

  /** A second run retains the same bookings and payments, and finds no file and no delivery. */
  lemma SecondRunFindsNothing(t: Tables, s: Subject)
    requires Belongs(t, s)
    ensures var first, second := CountsOf(t, s), CountsOf(Anonymised(t, s), s);
            && second.files == 0 && second.deliveries == 0
            && second.bookingsRetained == first.bookingsRetained
            && second.financialsRetained == first.financialsRetained
  {
    var t' := Anonymised(t, s);
    SameBookings(t, s, t');
    SameEntries(t, s, t');
    hide AppointmentsOf, EntriesOf, FilesOf, ReceiptsOf, UnsentTo, PaymentsOf, MediaAfter, PaymentsAfter,
      DeliveriesAfter;
    NoFiles(t.media, t.payments, OwnBookings(t, s), s);
    NoneUnsent(t.reminders, {s.user}, UNSENT_REMINDERS, Cancelled, s);
    NoneUnsent(t.recipients, {s.user}, UNSENT, Unsubscribed, s);
    NoneUnsent(t.notices, EntriesOf(t.entries, s), UNSENT, Cancelled, s);
  }

  // The same in stages, each reading what the stages before it left.

  function WithTexts(t: Tables, s: Subject): Tables {
    t.(notes := NotesAfter(t.notes, s), appointments := AppointmentsAfter(t.appointments, s),
       histories := HistoriesAfter(t.histories, OwnBookings(t, s)),
       revisions := RevisionsAfter(t.revisions, ReviewsOf(t.reviews, s)), reviews := ReviewsAfter(t.reviews, s))
  }

  function WithFiles(t: Tables, s: Subject): Tables {
    t.(media := MediaAfter(t.media, OwnBookings(t, s), s),
       payments := PaymentsAfter(t.payments, OwnBookings(t, s), s))
  }

  function WithDeliveries(t: Tables, s: Subject): Tables {
    t.(reminders := DeliveriesAfter(t.reminders, {s.user}, UNSENT_REMINDERS, Cancelled, s),
       recipients := DeliveriesAfter(t.recipients, {s.user}, UNSENT, Unsubscribed, s),
       notices := DeliveriesAfter(t.notices, EntriesOf(t.entries, s), UNSENT, Cancelled, s),
       entries := EntriesAfter(t.entries, s))
  }

  function WithTraces(t: Tables, s: Subject): Tables {
    t.(tags := TagsAfter(t.tags, s), attributions := AttributionsAfter(t.attributions, s),
       links := LinksAfter(t.links, OwnProfiles(t, s), s),
       profiles := ProfilesAfter(t.profiles, Former(t, s), s),
       invitations := InvitationsAfter(t.invitations, s), staff := StaffAfter(t.staff, s))
  }

  function WithIdentity(t: Tables, s: Subject): Tables
    requires s.client in t.clients && s.user in t.users
  {
    t.(clients := t.clients[s.client := t.clients[s.client].(active := false, anonymizedAt := Some(s.at))],
       users := t.users[s.user := UserAfter(s, t.users[s.user])])
  }

  lemma StagesAreTheWhole(t: Tables, s: Subject)
    requires Belongs(t, s)
    ensures WithIdentity(WithTraces(WithDeliveries(WithFiles(WithTexts(t, s), s), s), s), s) == Anonymised(t, s)
  {
    SameBookingIds(t.appointments, s);
  }

  datatype PrivacyError = SubjectNotInBusiness

  class Database {
    var t: Tables

    constructor (t: Tables)
      ensures this.t == t
    {
      this.t := t;
    }

    /** Notes, comments and reviews. */
    method ClearTexts(s: Subject) returns (noted: nat, comments: nat, words: nat)
      modifies this
      ensures t == WithTexts(old(t), s)
      ensures noted == |NotesOf(old(t).notes, s)|
      ensures comments == |CommentedOf(old(t).appointments, s)|
                          + |ReasonsOf(old(t).histories, AppointmentsOf(old(t).appointments, s))|
      ensures words == |ReviewsOf(old(t).reviews, s)| + |WordedOf(old(t).revisions, ReviewsOf(old(t).reviews, s))|
    {
      hide NotesAfter, AppointmentsAfter, HistoriesAfter, RevisionsAfter, ReviewsAfter, AppointmentsOf, ReviewsOf,
        NotesOf, CommentedOf, ReasonsOf, WordedOf;
      noted := |NotesOf(t.notes, s)|;
      t := t.(notes := NotesAfter(t.notes, s));
      comments := |CommentedOf(t.appointments, s)|;
      SameBookingIds(t.appointments, s);
      t := t.(appointments := AppointmentsAfter(t.appointments, s));
      comments := comments + |ReasonsOf(t.histories, AppointmentsOf(t.appointments, s))|;
      t := t.(histories := HistoriesAfter(t.histories, AppointmentsOf(t.appointments, s)));
      words := |WordedOf(t.revisions, ReviewsOf(t.reviews, s))|;
      t := t.(revisions := RevisionsAfter(t.revisions, ReviewsOf(t.reviews, s)));
      words := words + |ReviewsOf(t.reviews, s)|;
      t := t.(reviews := ReviewsAfter(t.reviews, s));
    }

    /** Reference media and payment receipts; none is left. */
    method ClearFiles(s: Subject) returns (files: nat)
      modifies this
      ensures t == WithFiles(old(t), s) && FilesCleared(t, s)
      ensures var ids := AppointmentsOf(t.appointments, s);
              files == |FilesOf(old(t).media, ids, s)| + |ReceiptsOf(old(t).payments, ids, s)|
    {
      hide MediaAfter, PaymentsAfter, AppointmentsOf, FilesOf, ReceiptsOf, FilesCleared;
      ghost var before := t;
      files := |FilesOf(t.media, AppointmentsOf(t.appointments, s), s)|;
      t := t.(media := MediaAfter(t.media, AppointmentsOf(t.appointments, s), s));
      files := files + |ReceiptsOf(t.payments, AppointmentsOf(t.appointments, s), s)|;
      t := t.(payments := PaymentsAfter(t.payments, AppointmentsOf(t.appointments, s), s));
      FilesAreCleared(before, s, t);
    }

    /** Whatever has not been sent is stopped, and the waiting ends. */
    method StopDeliveries(s: Subject) returns (stopped: nat)
      modifies this
      ensures t == WithDeliveries(old(t), s) && DeliveriesStopped(t, s)
      ensures stopped == |UnsentTo(old(t).reminders, {s.user}, UNSENT_REMINDERS, s)|
                         + |UnsentTo(old(t).recipients, {s.user}, UNSENT, s)|
                         + |UnsentTo(old(t).notices, EntriesOf(old(t).entries, s), UNSENT, s)|
    {
      hide DeliveriesAfter, EntriesAfter, EntriesOf, UnsentTo, DeliveriesStopped;
      ghost var before := t;
      stopped := |UnsentTo(t.reminders, {s.user}, UNSENT_REMINDERS, s)|;
      t := t.(reminders := DeliveriesAfter(t.reminders, {s.user}, UNSENT_REMINDERS, Cancelled, s));
      stopped := stopped + |UnsentTo(t.recipients, {s.user}, UNSENT, s)|;
      t := t.(recipients := DeliveriesAfter(t.recipients, {s.user}, UNSENT, Unsubscribed, s));
      stopped := stopped + |UnsentTo(t.notices, EntriesOf(t.entries, s), UNSENT, s)|;
      t := t.(notices := DeliveriesAfter(t.notices, EntriesOf(t.entries, s), UNSENT, Cancelled, s));
      t := t.(entries := EntriesAfter(t.entries, s));
      DeliveriesAreStopped(before, s, t);
    }

    /** Tags, attribution, public profiles, invitations, and last the staff records themselves. */
    method RemoveTraces(s: Subject)
      modifies this
      ensures t == WithTraces(old(t), s)
    {
      hide TagsAfter, AttributionsAfter, LinksAfter, ProfilesAfter, InvitationsAfter, StaffAfter, ProfilesOf,
        FormerStaff;
      t := t.(tags := TagsAfter(t.tags, s));
      t := t.(attributions := AttributionsAfter(t.attributions, s));
      t := t.(links := LinksAfter(t.links, ProfilesOf(t.profiles, FormerStaff(t.staff, s), s), s));
      t := t.(profiles := ProfilesAfter(t.profiles, FormerStaff(t.staff, s), s));
      t := t.(invitations := InvitationsAfter(t.invitations, s));
      t := t.(staff := StaffAfter(t.staff, s));
    }

    /** The statements in the program's order; each selects its rows when it is executed. */
    method RunStatements(s: Subject) returns (c: Counts)
      requires Belongs(t, s)
      modifies this
      ensures t == Anonymised(old(t), s) && c == CountsOf(old(t), s)
    {
      hide NotesOf, CommentedOf, ReasonsOf, WordedOf, FilesOf, ReceiptsOf, UnsentTo, RefundsOf, AppointmentsOf,
        ReviewsOf, EntriesOf, PaymentsOf, AppointmentsAfter, Anonymised, FilesCleared, DeliveriesStopped;
      ghost var before := t;
      var retained := |AppointmentsOf(t.appointments, s)|;
      var paid := PaymentsOf(t.payments, AppointmentsOf(t.appointments, s), s);
      var financials := |paid| + |RefundsOf(t.refunds, paid, s)|;
      SameBookingIds(t.appointments, s);
      StagesAreTheWhole(before, s);
      var noted, comments, words := ClearTexts(s);
      var files := ClearFiles(s);
      var stopped := StopDeliveries(s);
      RemoveTraces(s);
      t := t.(clients := t.clients[s.client := t.clients[s.client].(active := false, anonymizedAt := Some(s.at))]);
      t := t.(users := t.users[s.user := UserAfter(s, t.users[s.user])]);
      c := Counts(2, noted, comments, words, files, stopped, retained, financials);
    }

    /** A subject that does not belong to the business is refused before anything is changed. */
    method AnonymizeClientData(s: Subject) returns (r: Result<Counts, PrivacyError>)
      modifies this
      ensures r.Ok? <==>
                && s.client in old(t).clients && s.user in old(t).users
                && old(t).clients[s.client].business == s.business && old(t).clients[s.client].user == s.user
      ensures r.Ok? ==> t == Anonymised(old(t), s) && r.value == CountsOf(old(t), s)
      ensures r.Ok? ==> Told(old(t), t, s, r.value)
      ensures r.Err? ==> t == old(t)
    {
      if !Belongs(t, s) {
        return Err(SubjectNotInBusiness);
      }
      hide Anonymised, Told, CountsOf;
      AnonymisedIsTold(t, s);
      var counts := RunStatements(s);
      return Ok(counts);
    }
  }
}
