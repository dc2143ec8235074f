/** The documents the handlers read and write, and the database that
    holds them. Collections that are searched by a field other than the
    id (partners by phone, admins by email, chats by booking, banners in
    sort order, users page by page) are sequences in insertion order, so
    that `findOne` is "the first match"; collections reached only by id
    are maps. */
module Store {
  import opened Common
  import opened Text
  import opened BookingSchema
  import opened ChatSchema

  datatype Profile = Profile(name: Option<string>, email: Option<string>, address: Option<string>,
                             landmark: Option<string>, pincode: Option<string>)

  datatype KycDetails = KycDetails(isVerified: bool, verificationRemarks: string,
                                   verifiedAt: Option<int>, verifiedBy: Option<Id>)

  datatype KycDocuments = KycDocuments(panCard: string, aadhaar: string)

  datatype BankDetails = BankDetails(accountNumber: string, ifscCode: string, accountHolderName: string,
                                     bankName: string, chequeImage: string)

  /** A service partner: login state (one-time password), review state
      (status, KYC) and the profile built up by the onboarding handlers. */
  datatype Partner = Partner(
    id: Id,
    phone: string,
    tempOTP: Option<string>,
    otpExpiry: Option<int>,
    status: Option<string>,
    statusRemarks: Option<string>,
    statusUpdatedAt: Option<int>,
    statusUpdatedBy: Option<Id>,
    kycStatus: Option<string>,
    kycDetails: Option<KycDetails>,
    profileCompleted: bool,
    profile: Option<Profile>,
    whatsappNumber: Option<string>,
    qualification: Option<string>,
    experience: Option<string>,
    profilePicture: Option<string>,
    category: Option<Id>,
    subcategory: Option<Id>,
    service: seq<Id>,
    modeOfService: Option<string>,
    kyc: Option<KycDocuments>,
    bankDetails: Option<BankDetails>,
    isVerified: Option<string>,
    verificationStatus: Option<string>)

  /** `path.basename` of an upload path: the text after the last `/`. */
  function Basename(path: string): (name: string)
    ensures '/' !in path ==> name == path
    ensures '/' !in name
  {
    LastSegmentShape(path, '/');
    LastSegment(path, '/')
  }

  predicate IsHexDigit(c: char)
  {
    '0' <= c <= '9' || 'a' <= c <= 'f' || 'A' <= c <= 'F'
  }

  /** `ObjectId.isValid` on a string: 24 hexadecimal digits, or any
      12-character string (read as 12 raw bytes). */
  predicate IsObjectId(s: string)
  {
    |s| == 12 || (|s| == 24 && forall i :: 0 <= i < |s| ==> IsHexDigit(s[i]))
  }

  /** A partner document as `new Partner({ phone })` creates it. */
  function NewPartner(id: Id, phone: string): (p: Partner)
    ensures p.id == id && p.phone == phone
    ensures p.tempOTP.None? && p.otpExpiry.None? && !p.profileCompleted && p.kycDetails.None?
  {
    Partner(id, phone, None, None, None, None, None, None, None, None, false, None,
            None, None, None, None, None, None, [], None, None, None, None, None)
  }

  /** The separate profile document edited by `updateProfile`, keyed by its partner. */
  datatype PartnerProfile = PartnerProfile(
    partner: Id,
    name: Option<string>,
    email: Option<string>,
    whatsappNumber: Option<string>,
    contactNumber: Option<string>,
    qualification: Option<string>,
    experience: Option<string>,
    category: Option<string>,
    service: Option<string>,
    modeOfService: Option<string>,
    profilePicture: Option<string>)

  datatype Admin = Admin(id: Id, email: string, password: string, name: Option<string>,
                         permissions: seq<string>, role: string)

  datatype User = User(id: Id, name: Option<string>, email: Option<string>, phone: Option<string>,
                       address: Option<string>, status: Option<string>, createdAt: int)

  datatype ServiceCategory = ServiceCategory(id: Id, name: string, description: string, icon: string,
                                             status: Option<string>, subtitle: Option<string>,
                                             services: seq<Id>)

  datatype SubCategory = SubCategory(id: Id, category: Id, services: seq<Id>)

  datatype Service = Service(
    id: Id,
    subCategory: Option<Id>,
    category: Option<Id>,
    name: Option<string>,
    description: Option<string>,
    icon: Option<string>,
    basePrice: Option<string>,
    duration: Option<string>,
    status: Option<string>,
    subServices: seq<Id>,
    isRecommended: Option<bool>,
    isMostBooked: Option<bool>)

  datatype SubService = SubService(
    id: Id,
    service: Option<Id>,
    name: Option<string>,
    description: Option<string>,
    price: Option<string>,
    basePrice: Option<string>,
    duration: Option<string>,
    icon: seq<string>,
    status: Option<string>,
    isActive: Option<bool>,
    includes: Option<string>,
    excludes: Option<string>)

  datatype Banner = Banner(id: Id, image: Option<string>, title: Option<string>,
                           description: Option<string>, order: int, isActive: bool)

  /** The collections of the service, updated in place by the handlers. */
  class Database {
    var partners: seq<Partner>
    var profiles: map<Id, PartnerProfile>
    var admins: seq<Admin>
    var users: seq<User>
    var bookings: map<Id, Booking>
    var chats: seq<Chat>
    var categories: map<Id, ServiceCategory>
    var subCategories: map<Id, SubCategory>
    var services: map<Id, Service>
    var subServices: map<Id, SubService>
    var banners: seq<Banner>

    constructor ()
      ensures partners == [] && profiles == map[] && admins == [] && users == []
      ensures bookings == map[] && chats == [] && categories == map[] && subCategories == map[]
      ensures services == map[] && subServices == map[] && banners == []
    {
      partners := [];
      profiles := map[];
      admins := [];
      users := [];
      bookings := map[];
      chats := [];
      categories := map[];
      subCategories := map[];
      services := map[];
      subServices := map[];
      banners := [];
    }
  }

  /** `Partner.findOne({ phone })`. */
  function FindPartnerByPhone(partners: seq<Partner>, phone: string): (r: Option<nat>)
    ensures r.Some? ==> r.value < |partners| && partners[r.value].phone == phone
    ensures r.Some? ==> forall j :: 0 <= j < r.value ==> partners[j].phone != phone
    ensures r.None? <==> forall j :: 0 <= j < |partners| ==> partners[j].phone != phone
  {
    IndexWhere(partners, (p: Partner) => p.phone == phone)
  }

  /** `Partner.findById(id)`. */
  function FindPartnerById(partners: seq<Partner>, id: Id): (r: Option<nat>)
    ensures r.Some? ==> r.value < |partners| && partners[r.value].id == id
    ensures r.None? <==> forall j :: 0 <= j < |partners| ==> partners[j].id != id
  {
    IndexWhere(partners, (p: Partner) => p.id == id)
  }

  /** `Admin.findOne({ email })`. */
  function FindAdminByEmail(admins: seq<Admin>, email: string): (r: Option<nat>)
    ensures r.Some? ==> r.value < |admins| && admins[r.value].email == email
    ensures r.None? <==> forall j :: 0 <= j < |admins| ==> admins[j].email != email
  {
    IndexWhere(admins, (a: Admin) => a.email == email)
  }

  /** `Admin.findById(id)`. */
  function FindAdminById(admins: seq<Admin>, id: Id): (r: Option<nat>)
    ensures r.Some? ==> r.value < |admins| && admins[r.value].id == id
    ensures r.None? <==> forall j :: 0 <= j < |admins| ==> admins[j].id != id
  {
    IndexWhere(admins, (a: Admin) => a.id == id)
  }

  /** `Chat.findOne({ bookingId })`. */
  function FindChat(chats: seq<Chat>, bookingId: Id): (r: Option<nat>)
    ensures r.Some? ==> r.value < |chats| && chats[r.value].bookingId == bookingId
    ensures r.Some? ==> forall j :: 0 <= j < r.value ==> chats[j].bookingId != bookingId
    ensures r.None? <==> forall j :: 0 <= j < |chats| ==> chats[j].bookingId != bookingId
  {
    IndexWhere(chats, (c: Chat) => c.bookingId == bookingId)
  }

  /** `Banner.findById(id)`. */
  function FindBanner(banners: seq<Banner>, id: Id): (r: Option<nat>)
    ensures r.Some? ==> r.value < |banners| && banners[r.value].id == id
    ensures r.None? <==> forall j :: 0 <= j < |banners| ==> banners[j].id != id
  {
    IndexWhere(banners, (b: Banner) => b.id == id)
  }
}
