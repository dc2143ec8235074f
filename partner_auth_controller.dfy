/** Partner onboarding: one-time-password login, the profile and
    service selection steps, KYC submission and profile edits. */
module PartnerAuthController {
  import opened Common
  import opened Text
  import opened Store

  // ---------------------------------------------------------------------
  // Issuing a one-time password

  /** Ten minutes, in milliseconds. */
  const OtpValidity: int := 10 * 60 * 1000

  /** `Math.floor(100000 + Math.random() * 900000).toString()`, where
      `draw` is `Math.floor(Math.random() * 900000)`. */
  function IssueOtp(draw: nat): (otp: string)
    requires draw < 900000
    ensures |otp| == 6 && AllDigits(otp)
    ensures DecimalValue(otp) == 100000 + draw
    ensures 100000 <= DecimalValue(otp) <= 999999
  {
    SixDigits(100000 + draw);
    DecimalRoundTrip(100000 + draw);
    DecimalString(100000 + draw)
  }

  /** Two lists of partners with the same phones in the same places give
      the same first match for every phone. */
  lemma FindPhoneStable(s: seq<Partner>, t: seq<Partner>, phone: string)
    requires |s| == |t| && forall j :: 0 <= j < |s| ==> s[j].phone == t[j].phone
    ensures FindPartnerByPhone(s, phone) == FindPartnerByPhone(t, phone)
  {
  }

  /** `Partner.findOne({ phone })`, creating `new Partner({ phone })` at the
      end when there is none: afterwards the phone always has a partner,
      and an existing one is left in place. */
  function Registered(partners: seq<Partner>, phone: string, newId: Id): (r: seq<Partner>)
    ensures FindPartnerByPhone(r, phone).Some?
    ensures FindPartnerByPhone(partners, phone).Some? ==> r == partners
    ensures FindPartnerByPhone(partners, phone).None? ==>
              r == partners + [NewPartner(newId, phone)] && FindPartnerByPhone(r, phone) == Some(|partners|)
  {
    if FindPartnerByPhone(partners, phone).Some? then partners
    else
      var r := partners + [NewPartner(newId, phone)];
      assert r[|partners|].phone == phone;
      r
  }

  /** `findOneAndUpdate({ phone }, { $set: { tempOTP, otpExpiry } })`: the
      first partner with the phone gets the code and its expiry; every other
      partner, and every phone, is as it was. */
  function IssueOtpTo(partners: seq<Partner>, phone: string, otp: string, expiry: int): (r: seq<Partner>)
    requires FindPartnerByPhone(partners, phone).Some?
    ensures |r| == |partners|
    ensures FindPartnerByPhone(r, phone) == FindPartnerByPhone(partners, phone)
    ensures var i := FindPartnerByPhone(partners, phone).value;
            && r[i].tempOTP == Some(otp) && r[i].otpExpiry == Some(expiry)
            && r[i].(tempOTP := partners[i].tempOTP, otpExpiry := partners[i].otpExpiry) == partners[i]
            && forall j :: 0 <= j < |r| && j != i ==> r[j] == partners[j]
  {
    var i := FindPartnerByPhone(partners, phone).value;
    var r := partners[i := partners[i].(tempOTP := Some(otp), otpExpiry := Some(expiry))];
    FindPhoneStable(partners, r, phone);
    r
  }

  /** `sendLoginOTP`: 400 without a phone; otherwise find-or-create the
      partner and give it a fresh code valid for ten minutes. */
  method SendLoginOTP(db: Database, phone: Option<string>, newId: Id, draw: nat, now: int) returns (reply: Reply)
    requires draw < 900000
    modifies db`partners
    ensures !Present(phone) ==> reply == Reply(400, "Phone number is required") && db.partners == old(db.partners)
    ensures Present(phone) ==>
              && reply == Reply(200, "OTP sent successfully")
              && db.partners == IssueOtpTo(Registered(old(db.partners), phone.value, newId), phone.value,
                                           IssueOtp(draw), now + OtpValidity)
  {
    if !Present(phone) {
      return Reply(400, "Phone number is required");
    }
    if FindPartnerByPhone(db.partners, phone.value).None? {
      db.partners := db.partners + [NewPartner(newId, phone.value)];
      assert db.partners[|db.partners| - 1].phone == phone.value;
    }
    db.partners := IssueOtpTo(db.partners, phone.value, IssueOtp(draw), now + OtpValidity);
    reply := Reply(200, "OTP sent successfully");
  }

  /** `resendOTP`: like `sendLoginOTP`, but an unknown phone is refused
      with 404 instead of registered. */
  method ResendOTP(db: Database, phone: Option<string>, draw: nat, now: int) returns (reply: Reply)
    requires draw < 900000
    modifies db`partners
    ensures !Present(phone) ==> reply == Reply(400, "Phone number is required") && db.partners == old(db.partners)
    ensures Present(phone) && FindPartnerByPhone(old(db.partners), phone.value).None? ==>
              reply == Reply(404, "Partner not found") && db.partners == old(db.partners)
    ensures Present(phone) && FindPartnerByPhone(old(db.partners), phone.value).Some? ==>
              && reply == Reply(200, "OTP resent successfully")
              && db.partners == IssueOtpTo(old(db.partners), phone.value, IssueOtp(draw), now + OtpValidity)
  {
    if !Present(phone) {
      return Reply(400, "Phone number is required");
    }
    if FindPartnerByPhone(db.partners, phone.value).None? {
      return Reply(404, "Partner not found");
    }
    db.partners := IssueOtpTo(db.partners, phone.value, IssueOtp(draw), now + OtpValidity);
    reply := Reply(200, "OTP resent successfully");
  }

  // ---------------------------------------------------------------------
  // Verifying a one-time password

  /** A code that is missing or whose expiry lies before `now`. */
  predicate OtpExpired(p: Partner, now: int)
  {
    p.otpExpiry.None? || p.otpExpiry.value < now
  }

  /** The outcome of `verifyLoginOTP` and the partners afterwards: the four
      refusals in their order, and on success the code is cleared. The
      entered code is compared by its string form. */
  function VerifyLogin(partners: seq<Partner>, phone: Option<string>, otp: Option<string>, now: int): (r: (Reply, seq<Partner>))
    ensures !(Present(phone) && Present(otp)) ==> r == (Reply(400, "Phone and OTP are required"), partners)
    ensures Present(phone) && Present(otp) && FindPartnerByPhone(partners, phone.value).None? ==>
              r == (Reply(400, "Partner not found"), partners)
    ensures Present(phone) && Present(otp) && FindPartnerByPhone(partners, phone.value).Some? ==>
              var p := partners[FindPartnerByPhone(partners, phone.value).value];
              && (OtpExpired(p, now) ==> r == (Reply(400, "OTP has expired"), partners))
              && (!OtpExpired(p, now) && p.tempOTP != Some(otp.value) ==> r == (Reply(400, "Invalid OTP"), partners))
    ensures r.0.status == 200 <==>
              && Present(phone) && Present(otp) && FindPartnerByPhone(partners, phone.value).Some?
              && !OtpExpired(partners[FindPartnerByPhone(partners, phone.value).value], now)
              && partners[FindPartnerByPhone(partners, phone.value).value].tempOTP == Some(otp.value)
    ensures r.0.status == 200 ==>
              var i := FindPartnerByPhone(partners, phone.value).value;
              r.1 == partners[i := partners[i].(tempOTP := None, otpExpiry := None)]
    ensures r.0.status != 200 ==> r.1 == partners
  {
    if !Present(phone) || !Present(otp) then (Reply(400, "Phone and OTP are required"), partners)
    else match FindPartnerByPhone(partners, phone.value)
      case None => (Reply(400, "Partner not found"), partners)
      case Some(i) =>
        var p := partners[i];
        if OtpExpired(p, now) then (Reply(400, "OTP has expired"), partners)
        else if p.tempOTP != Some(otp.value) then (Reply(400, "Invalid OTP"), partners)
        else (Reply(200, "Login successful"), partners[i := p.(tempOTP := None, otpExpiry := None)])
  }

  /** `verifyLoginOTP` on the stored partners, clearing the code in place. */
  method VerifyLoginOTP(db: Database, phone: Option<string>, otp: Option<string>, now: int) returns (reply: Reply)
    modifies db`partners
    ensures (reply, db.partners) == VerifyLogin(old(db.partners), phone, otp, now)
  {
    if !Present(phone) || !Present(otp) {
      return Reply(400, "Phone and OTP are required");
    }
    var found := FindPartnerByPhone(db.partners, phone.value);
    if found.None? {
      return Reply(400, "Partner not found");
    }
    var i := found.value;
    var partner := db.partners[i];
    if partner.otpExpiry.None? || partner.otpExpiry.value < now {
      return Reply(400, "OTP has expired");
    }
    if partner.tempOTP != Some(otp.value) {
      return Reply(400, "Invalid OTP");
    }
    partner := partner.(tempOTP := None);
    partner := partner.(otpExpiry := None);
    db.partners := db.partners[i := partner];
    reply := Reply(200, "Login successful");
  }

  /** A code works once: after a successful login, any further attempt for
      the phone, at any time and with any code, is refused as expired. */
  lemma OtpSingleUse(partners: seq<Partner>, phone: string, otp: string, now: int, otp': string, later: int)
    requires VerifyLogin(partners, Some(phone), Some(otp), now).0.status == 200
    requires otp' != ""
    ensures VerifyLogin(VerifyLogin(partners, Some(phone), Some(otp), now).1, Some(phone), Some(otp'), later).0
            == Reply(400, "OTP has expired")
  {
    var after := VerifyLogin(partners, Some(phone), Some(otp), now).1;
    FindPhoneStable(partners, after, phone);
  }

  /** An issued code is accepted up to and including its expiry, refused as
      expired after it, and any other code is refused while it is valid. */
  lemma IssuedOtpAccepted(partners: seq<Partner>, phone: string, draw: nat, now: int, t: int, other: string)
    requires draw < 900000 && phone != ""
    requires FindPartnerByPhone(partners, phone).Some?
    requires other != "" && other != IssueOtp(draw)
    ensures var issued := IssueOtpTo(partners, phone, IssueOtp(draw), now + OtpValidity);
            && (t <= now + OtpValidity ==> VerifyLogin(issued, Some(phone), Some(IssueOtp(draw)), t).0.status == 200)
            && (t > now + OtpValidity ==> VerifyLogin(issued, Some(phone), Some(IssueOtp(draw)), t).0
                                          == Reply(400, "OTP has expired"))
            && (t <= now + OtpValidity ==> VerifyLogin(issued, Some(phone), Some(other), t).0
                                           == Reply(400, "Invalid OTP"))
  {
  }

  // ---------------------------------------------------------------------
  // Completing the profile

  datatype ProfileForm = ProfileForm(name: Option<string>, email: Option<string>, whatsappNumber: Option<string>,
                                     qualification: Option<string>, experience: Option<string>,
                                     contactNumber: Option<string>, address: Option<string>,
                                     landmark: Option<string>, pincode: Option<string>)

  /** The partner after `completeProfile`'s `$set`: the profile is replaced
      by the form's, the completion flag drops to false, absent fields keep
      their values, and the picture is the upload's path or `null`. */
  function ProfileCompleted(p: Partner, form: ProfileForm, picture: Option<string>): (q: Partner)
    ensures !q.profileCompleted
    ensures q.profile == Some(Profile(form.name, form.email, form.address, form.landmark, form.pincode))
    ensures q.whatsappNumber == (if form.whatsappNumber.Some? then form.whatsappNumber else p.whatsappNumber)
    ensures q.qualification == (if form.qualification.Some? then form.qualification else p.qualification)
    ensures q.experience == (if form.experience.Some? then form.experience else p.experience)
    ensures q.profilePicture == picture
    ensures q.(profileCompleted := p.profileCompleted, profile := p.profile, whatsappNumber := p.whatsappNumber,
               qualification := p.qualification, experience := p.experience,
               profilePicture := p.profilePicture) == p
  {
    p.(profileCompleted := false,
       profile := Some(Profile(form.name, form.email, form.address, form.landmark, form.pincode)),
       whatsappNumber := if form.whatsappNumber.Some? then form.whatsappNumber else p.whatsappNumber,
       qualification := if form.qualification.Some? then form.qualification else p.qualification,
       experience := if form.experience.Some? then form.experience else p.experience,
       profilePicture := picture)
  }

  /** `completeProfile`: name and email are required; the partner is found
      by its phone being the form's contact number, never created. */
  method CompleteProfile(db: Database, form: ProfileForm, picture: Option<string>) returns (reply: Reply)
    modifies db`partners
    ensures !(Present(form.name) && Present(form.email)) ==>
              reply == Reply(400, "Name and Email are required") && db.partners == old(db.partners)
    ensures Present(form.name) && Present(form.email)
            && (form.contactNumber.None? || FindPartnerByPhone(old(db.partners), form.contactNumber.value).None?) ==>
              reply == Reply(404, "Partner not found") && db.partners == old(db.partners)
    ensures Present(form.name) && Present(form.email) && form.contactNumber.Some?
            && FindPartnerByPhone(old(db.partners), form.contactNumber.value).Some? ==>
              var i := FindPartnerByPhone(old(db.partners), form.contactNumber.value).value;
              && reply == Reply(200, "Partner updated successfully")
              && db.partners == old(db.partners)[i := ProfileCompleted(old(db.partners)[i], form, picture)]
    ensures |db.partners| == |old(db.partners)|
  {
    if !Present(form.name) || !Present(form.email) {
      return Reply(400, "Name and Email are required");
    }
    if form.contactNumber.None? {
      return Reply(404, "Partner not found");
    }
    var found := FindPartnerByPhone(db.partners, form.contactNumber.value);
    if found.None? {
      return Reply(404, "Partner not found");
    }
    var i := found.value;
    db.partners := db.partners[i := ProfileCompleted(db.partners[i], form, picture)];
    reply := Reply(200, "Partner updated successfully");
  }

  // ---------------------------------------------------------------------
  // Selecting category, sub-category and services

  /** No id occurs twice. */
  predicate Distinct(ids: seq<Id>)
  {
    forall i, j :: 0 <= i < j < |ids| ==> ids[i] != ids[j]
  }

  function Elements(ids: seq<Id>): (e: set<Id>)
    ensures forall x :: x in e <==> x in ids
  {
    set x | x in ids
  }

  /** A list has at most as many distinct ids as entries, exactly as many
      when no id repeats. */
  lemma {:induction false} ElementsCard(ids: seq<Id>)
    ensures |Elements(ids)| <= |ids|
    ensures |Elements(ids)| == |ids| <==> Distinct(ids)
  {
    if ids != [] {
      var rest := ids[1..];
      ElementsCard(rest);
      if ids[0] in rest {
        assert Elements(ids) == Elements(rest);
        var k :| 0 <= k < |rest| && rest[k] == ids[0];
        assert ids[k + 1] == ids[0];
      } else {
        assert Elements(ids) == Elements(rest) + {ids[0]};
        if Distinct(rest) {
          forall i, j | 0 <= i < j < |ids| ensures ids[i] != ids[j] {
            if i > 0 {
              assert ids[i] == rest[i - 1] && ids[j] == rest[j - 1];
            } else {
              assert ids[j] == rest[j - 1];
            }
          }
        }
        if Distinct(ids) {
          forall i, j | 0 <= i < j < |rest| ensures rest[i] != rest[j] {
            assert rest[i] == ids[i + 1] && rest[j] == ids[j + 1];
          }
        }
      }
    }
  }

  /** The services `Service.find({ _id: { $in: ids }, subCategory })`
      returns: each matching document once. */
  function FoundServices(services: map<Id, Service>, ids: seq<Id>, subcategory: Id): (found: set<Id>)
    ensures found <= Elements(ids)
  {
    set id | id in ids && id in services && services[id].subCategory == Some(subcategory)
  }

  /** Every requested id names a service of the sub-category. */
  predicate AllUnder(services: map<Id, Service>, ids: seq<Id>, subcategory: Id)
  {
    forall k :: 0 <= k < |ids| ==> ids[k] in services && services[ids[k]].subCategory == Some(subcategory)
  }

  /** The count comparison of `selectCategoryAndServices` holds exactly
      when every requested id is a service of the sub-category and no id
      is requested twice: a repeated id is refused. */
  lemma ServiceCountCheck(services: map<Id, Service>, ids: seq<Id>, subcategory: Id)
    ensures |FoundServices(services, ids, subcategory)| == |ids| <==>
              AllUnder(services, ids, subcategory) && Distinct(ids)
  {
    var found := FoundServices(services, ids, subcategory);
    var all := Elements(ids);
    ElementsCard(ids);
    if AllUnder(services, ids, subcategory) {
      forall x | x in all ensures x in found {
        var k :| 0 <= k < |ids| && ids[k] == x;
      }
      assert found == all;
    } else {
      var k :| 0 <= k < |ids| && !(ids[k] in services && services[ids[k]].subCategory == Some(subcategory));
      assert ids[k] in all - found;
      assert |all - found| >= 1;
      assert |found| < |all|;
    }
  }

  /** The partner after a successful selection. */
  function Selected(p: Partner, category: Id, subcategory: Id, ids: seq<Id>, modeOfService: string): (q: Partner)
    ensures q.profileCompleted && q.service == ids
    ensures q.category == Some(category) && q.subcategory == Some(subcategory) && q.modeOfService == Some(modeOfService)
    ensures q.(category := p.category, subcategory := p.subcategory, service := p.service,
               modeOfService := p.modeOfService, profileCompleted := p.profileCompleted) == p
  {
    p.(category := Some(category), subcategory := Some(subcategory), service := ids,
       modeOfService := Some(modeOfService), profileCompleted := true)
  }

  /** `selectCategoryAndServices`, with the service ids given as a list:
      400 for missing fields, an unknown category or a sub-category outside
      it; 500 when an id cannot be made an ObjectId; 400 unless the count
      check passes; 404 for an unknown partner; otherwise the selection is
      stored and the profile marked complete. */
  function SelectCategoryAndServices(partners: seq<Partner>, categories: map<Id, ServiceCategory>,
                                     subCategories: map<Id, SubCategory>, services: map<Id, Service>,
                                     partnerId: Option<Id>, category: Option<Id>, subcategory: Option<Id>,
                                     service: Option<seq<Id>>, modeOfService: Option<string>): (r: (Reply, seq<Partner>))
    ensures r.0.status != 200 ==> r.1 == partners
    ensures !(Present(partnerId) && Present(category) && Present(subcategory) && service.Some? && Present(modeOfService)) ==>
              r.0 == Reply(400, "Missing required fields")
    ensures r.0.status == 200 <==>
              && Present(partnerId) && Present(category) && Present(subcategory) && service.Some? && Present(modeOfService)
              && category.value in categories
              && subcategory.value in subCategories && subCategories[subcategory.value].category == category.value
              && AllUnder(services, service.value, subcategory.value) && Distinct(service.value)
              && (forall k :: 0 <= k < |service.value| ==> IsObjectId(service.value[k]))
              && FindPartnerById(partners, partnerId.value).Some?
    ensures r.0.status == 200 ==>
              var i := FindPartnerById(partners, partnerId.value).value;
              r.1 == partners[i := Selected(partners[i], category.value, subcategory.value, service.value, modeOfService.value)]
  {
    if !Present(partnerId) || !Present(category) || !Present(subcategory) || service.None? || !Present(modeOfService) then
      (Reply(400, "Missing required fields"), partners)
    else if category.value !in categories then (Reply(400, "Invalid category ID"), partners)
    else if subcategory.value !in subCategories || subCategories[subcategory.value].category != category.value then
      (Reply(400, "Invalid subcategory ID"), partners)
    else if exists k :: 0 <= k < |service.value| && !IsObjectId(service.value[k]) then
      (Reply(500, "Internal Server Error"), partners)
    else if |FoundServices(services, service.value, subcategory.value)| != |service.value| then
      ServiceCountCheck(services, service.value, subcategory.value);
      (Reply(400, "Invalid service IDs"), partners)
    else match FindPartnerById(partners, partnerId.value)
      case None => (Reply(404, "Partner not found"), partners)
      case Some(i) =>
        ServiceCountCheck(services, service.value, subcategory.value);
        (Reply(200, "Profile updated successfully"),
         partners[i := Selected(partners[i], category.value, subcategory.value, service.value, modeOfService.value)])
  }

  // ---------------------------------------------------------------------
  // KYC submission

  /** `completeKYC` for the authenticated partner: the four bank fields and
      the three uploaded documents are all required; the documents and
      bank details are stored and both verification fields become
      "pending". */
  method CompleteKYC(db: Database, partnerId: Id, accountNumber: Option<string>, ifscCode: Option<string>,
                     accountHolderName: Option<string>, bankName: Option<string>, panCard: Option<string>,
                     aadhaar: Option<string>, chequeImage: Option<string>) returns (reply: Reply)
    modifies db`partners
    ensures !(Present(accountNumber) && Present(ifscCode) && Present(accountHolderName) && Present(bankName)
              && Present(panCard) && Present(aadhaar) && Present(chequeImage)) ==>
              reply == Reply(400, "Please provide all required fields and documents") && db.partners == old(db.partners)
    ensures reply.status == 200 <==>
              Present(accountNumber) && Present(ifscCode) && Present(accountHolderName) && Present(bankName)
              && Present(panCard) && Present(aadhaar) && Present(chequeImage)
              && FindPartnerById(old(db.partners), partnerId).Some?
    ensures reply.status == 404 ==> reply.message == "Partner profile not found"
    ensures reply.status != 200 ==> db.partners == old(db.partners)
    ensures reply.status == 200 ==>
              var i := FindPartnerById(old(db.partners), partnerId).value;
              db.partners == old(db.partners)[i := old(db.partners)[i].(
                kyc := Some(KycDocuments(panCard.value, aadhaar.value)),
                bankDetails := Some(BankDetails(accountNumber.value, ifscCode.value, accountHolderName.value,
                                                bankName.value, chequeImage.value)),
                isVerified := Some("pending"), verificationStatus := Some("pending"))]
  {
    if !Present(accountNumber) || !Present(ifscCode) || !Present(accountHolderName) || !Present(bankName)
       || !Present(panCard) || !Present(aadhaar) || !Present(chequeImage) {
      return Reply(400, "Please provide all required fields and documents");
    }
    var found := FindPartnerById(db.partners, partnerId);
    if found.None? {
      return Reply(404, "Partner profile not found");
    }
    var i := found.value;
    var partner := db.partners[i];
    partner := partner.(kyc := Some(KycDocuments(panCard.value, aadhaar.value)));
    partner := partner.(bankDetails := Some(BankDetails(accountNumber.value, ifscCode.value,
                                                        accountHolderName.value, bankName.value, chequeImage.value)));
    partner := partner.(isVerified := Some("pending"));
    partner := partner.(verificationStatus := Some("pending"));
    db.partners := db.partners[i := partner];
    reply := Reply(200, "KYC completed successfully");
  }

  // ---------------------------------------------------------------------
  // Editing the profile document

  datatype ProfileEdit = ProfileEdit(name: Option<string>, email: Option<string>, whatsappNumber: Option<string>,
                                     contactNumber: Option<string>, qualification: Option<string>,
                                     experience: Option<string>, category: Option<string>,
                                     service: Option<string>, modeOfService: Option<string>)

  /** `updateProfile`'s assignments: each field, and the picture, changes
      only when a truthy value is given. */
  function EditedProfile(p: PartnerProfile, edit: ProfileEdit, picture: Option<string>): (q: PartnerProfile)
    ensures q.partner == p.partner
    ensures q.name == Supplied(edit.name, p.name) && q.email == Supplied(edit.email, p.email)
    ensures q.whatsappNumber == Supplied(edit.whatsappNumber, p.whatsappNumber)
    ensures q.contactNumber == Supplied(edit.contactNumber, p.contactNumber)
    ensures q.qualification == Supplied(edit.qualification, p.qualification)
    ensures q.experience == Supplied(edit.experience, p.experience)
    ensures q.category == Supplied(edit.category, p.category) && q.service == Supplied(edit.service, p.service)
    ensures q.modeOfService == Supplied(edit.modeOfService, p.modeOfService)
    ensures q.profilePicture == Supplied(picture, p.profilePicture)
  {
    PartnerProfile(p.partner, Supplied(edit.name, p.name), Supplied(edit.email, p.email),
                   Supplied(edit.whatsappNumber, p.whatsappNumber), Supplied(edit.contactNumber, p.contactNumber),
                   Supplied(edit.qualification, p.qualification), Supplied(edit.experience, p.experience),
                   Supplied(edit.category, p.category), Supplied(edit.service, p.service),
                   Supplied(edit.modeOfService, p.modeOfService), Supplied(picture, p.profilePicture))
  }

  /** An edit that supplies nothing leaves the profile as it was. */
  lemma EditNothingSupplied(p: PartnerProfile)
    ensures EditedProfile(p, ProfileEdit(None, None, None, None, None, None, None, None, None), None) == p
  {
  }

  /** Repeating an edit changes nothing further. */
  lemma EditIdempotent(p: PartnerProfile, edit: ProfileEdit, picture: Option<string>)
    ensures EditedProfile(EditedProfile(p, edit, picture), edit, picture) == EditedProfile(p, edit, picture)
  {
  }

  /** `updateProfile` for the authenticated partner's profile document. */
  method UpdateProfile(db: Database, partnerId: Id, edit: ProfileEdit, picture: Option<string>) returns (reply: Reply)
    modifies db`profiles
    ensures partnerId !in old(db.profiles) ==>
              reply == Reply(404, "Profile not found") && db.profiles == old(db.profiles)
    ensures partnerId in old(db.profiles) ==>
              reply == Reply(200, "Profile updated successfully")
              && db.profiles == old(db.profiles)[partnerId := EditedProfile(old(db.profiles)[partnerId], edit, picture)]
  {
    if partnerId !in db.profiles {
      return Reply(404, "Profile not found");
    }
    var profile := db.profiles[partnerId];
    profile := profile.(name := Supplied(edit.name, profile.name));
    profile := profile.(email := Supplied(edit.email, profile.email));
    profile := profile.(whatsappNumber := Supplied(edit.whatsappNumber, profile.whatsappNumber));
    profile := profile.(contactNumber := Supplied(edit.contactNumber, profile.contactNumber));
    profile := profile.(qualification := Supplied(edit.qualification, profile.qualification));
    profile := profile.(experience := Supplied(edit.experience, profile.experience));
    profile := profile.(category := Supplied(edit.category, profile.category));
    profile := profile.(service := Supplied(edit.service, profile.service));
    profile := profile.(modeOfService := Supplied(edit.modeOfService, profile.modeOfService));
    profile := profile.(profilePicture := Supplied(picture, profile.profilePicture));
    db.profiles := db.profiles[partnerId := profile];
    reply := Reply(200, "Profile updated successfully");
  }
}
