/** The admin back office: login and admin creation, the dashboard
    counters, KYC verdicts, partner status changes, completing a booking
    and the paginated user list. Password hashing and token signing are
    parameters of the model. */
module AdminController {
  import opened Common
  import opened Text
  import opened BookingSchema
  import opened Store

  // ---------------------------------------------------------------------
  // Login and admin creation

  const SuperAdminRole: string := "super_admin"
  const AdminRole: string := "admin"

  datatype Session = Session(token: string, admin: Admin)

  /** `loginAdmin`: the admin with that email whose stored hash matches the
      password gets a token signed over its id; anything else is 401. */
  function LoginAdmin(admins: seq<Admin>, email: string, password: string,
                      passwordMatches: (string, string) -> bool, sign: Id -> string): (r: Result<Session, Reply>)
    ensures r.Err? ==> r.error == Reply(401, "Invalid credentials")
    ensures r.Ok? ==> r.value.admin in admins && r.value.admin.email == email
                      && passwordMatches(password, r.value.admin.password)
                      && r.value.token == sign(r.value.admin.id)
    ensures FindAdminByEmail(admins, email).None? ==> r.Err?
    ensures FindAdminByEmail(admins, email).Some? ==>
              var i := FindAdminByEmail(admins, email).value;
              && (r.Ok? <==> passwordMatches(password, admins[i].password))
              && (r.Ok? ==> r.value.admin == admins[i])
  {
    match FindAdminByEmail(admins, email)
    case None => Err(Reply(401, "Invalid credentials"))
    case Some(i) =>
      if !passwordMatches(password, admins[i].password) then Err(Reply(401, "Invalid credentials"))
      else Ok(Session(sign(admins[i].id), admins[i]))
  }

  /** No two admins share an email. */
  predicate UniqueEmails(admins: seq<Admin>)
  {
    forall i, j :: 0 <= i < j < |admins| ==> admins[i].email != admins[j].email
  }

  /** `createAdmin`: only a super admin may create admins (403), an email
      already taken is refused (400), and the new admin is appended with the
      hashed password and always the plain admin role. */
  function CreateAdmin(requester: Admin, admins: seq<Admin>, id: Id, email: string, password: string,
                       name: Option<string>, permissions: seq<string>, hash: string -> string): (r: (Reply, seq<Admin>))
    ensures requester.role != SuperAdminRole ==> r == (Reply(403, "Not authorized"), admins)
    ensures requester.role == SuperAdminRole && FindAdminByEmail(admins, email).Some? ==>
              r == (Reply(400, "Admin already exists"), admins)
    ensures r.0.status == 201 <==> requester.role == SuperAdminRole && FindAdminByEmail(admins, email).None?
    ensures r.0.status == 201 ==> r.1 == admins + [Admin(id, email, hash(password), name, permissions, AdminRole)]
    ensures forall a :: a in r.1 ==> a in admins || a.role == AdminRole
    ensures UniqueEmails(admins) ==> UniqueEmails(r.1)
  {
    if requester.role != SuperAdminRole then (Reply(403, "Not authorized"), admins)
    else if FindAdminByEmail(admins, email).Some? then (Reply(400, "Admin already exists"), admins)
    else (Reply(201, "Admin created successfully"),
          admins + [Admin(id, email, hash(password), name, permissions, AdminRole)])
  }

  // ---------------------------------------------------------------------
  // Grouping and counting: `$group` by a key with `$sum: 1`, then
  // `reduce` over the counts and `find` of one group

  datatype Group<K> = Group(key: K, count: nat)

  function Keys<K(==)>(groups: seq<Group<K>>): set<K>
  {
    if groups == [] then {} else {groups[0].key} + Keys(groups[1..])
  }

  predicate DistinctKeys<K(==)>(groups: seq<Group<K>>)
  {
    groups == [] || (groups[0].key !in Keys(groups[1..]) && DistinctKeys(groups[1..]))
  }

  /** Counts one more document with key `k`. */
  function Bump<K(==)>(groups: seq<Group<K>>, k: K): seq<Group<K>>
  {
    if groups == [] then [Group(k, 1)]
    else if groups[0].key == k then [groups[0].(count := groups[0].count + 1)] + groups[1..]
    else [groups[0]] + Bump(groups[1..], k)
  }

  /** One group per distinct key, counting the documents that carry it. */
  function GroupCount<K(==)>(keys: seq<K>): seq<Group<K>>
  {
    if keys == [] then [] else Bump(GroupCount(keys[..|keys| - 1]), keys[|keys| - 1])
  }

  /** `groups.reduce((acc, g) => acc + g.count, 0)`. */
  function Total<K>(groups: seq<Group<K>>): nat
  {
    if groups == [] then 0 else groups[0].count + Total(groups[1..])
  }

  /** `groups.find(g => g._id === k)?.count || 0`. */
  function CountOf<K(==)>(groups: seq<Group<K>>, k: K): nat
  {
    if groups == [] then 0 else if groups[0].key == k then groups[0].count else CountOf(groups[1..], k)
  }

  lemma {:induction false} BumpProps<K>(groups: seq<Group<K>>, k: K)
    ensures Total(Bump(groups, k)) == Total(groups) + 1
    ensures forall j :: CountOf(Bump(groups, k), j) == CountOf(groups, j) + (if j == k then 1 else 0)
    ensures Keys(Bump(groups, k)) == Keys(groups) + {k}
    ensures DistinctKeys(groups) ==> DistinctKeys(Bump(groups, k))
  {
    if groups == [] {
      assert Bump(groups, k)[1..] == [];
    } else if groups[0].key == k {
      assert Bump(groups, k)[1..] == groups[1..];
    } else {
      BumpProps(groups[1..], k);
      assert Bump(groups, k)[1..] == Bump(groups[1..], k);
    }
  }

  /** Grouping counts every document exactly once, in the group of its key. */
  lemma {:induction false} GroupCountProps<K>(keys: seq<K>)
    ensures Total(GroupCount(keys)) == |keys|
    ensures forall k :: CountOf(GroupCount(keys), k) == multiset(keys)[k]
    ensures DistinctKeys(GroupCount(keys))
  {
    if keys != [] {
      var init := keys[..|keys| - 1];
      var last := keys[|keys| - 1];
      GroupCountProps(init);
      BumpProps(GroupCount(init), last);
      assert keys == init + [last];
      assert multiset(keys) == multiset(init) + multiset{last};
    }
  }

  // ---------------------------------------------------------------------
  // Dashboard counters

  datatype Dashboard = Dashboard(
    partnerTotal: nat,
    byStatus: seq<Group<Option<string>>>,
    kycTotal: nat,
    byKycStatus: seq<Group<Option<string>>>,
    verified: nat,
    pending: nat)

  function StatusKeys(partners: seq<Partner>): (keys: seq<Option<string>>)
    ensures |keys| == |partners|
  {
    seq(|partners|, i requires 0 <= i < |partners| => partners[i].status)
  }

  function KycStatusKeys(partners: seq<Partner>): (keys: seq<Option<string>>)
    ensures |keys| == |partners|
  {
    seq(|partners|, i requires 0 <= i < |partners| => partners[i].kycStatus)
  }

  /** `kycDetails.isVerified` of the partners that have KYC details. */
  function KycFlags(partners: seq<Partner>): seq<bool>
  {
    if partners == [] then []
    else (if partners[0].kycDetails.Some? then [partners[0].kycDetails.value.isVerified] else [])
         + KycFlags(partners[1..])
  }

  predicate KycVerified(p: Partner)
  {
    p.kycDetails.Some? && p.kycDetails.value.isVerified
  }

  predicate KycPending(p: Partner)
  {
    p.kycDetails.Some? && !p.kycDetails.value.isVerified
  }

  /** `getDashboardAnalytics` without the date-based parts. */
  function DashboardAnalytics(partners: seq<Partner>): Dashboard
  {
    var byStatus := GroupCount(StatusKeys(partners));
    var byKyc := GroupCount(KycStatusKeys(partners));
    var flags := GroupCount(KycFlags(partners));
    Dashboard(Total(byStatus), byStatus, Total(byKyc), byKyc, CountOf(flags, true), CountOf(flags, false))
  }

  lemma {:induction false} KycFlagsCount(partners: seq<Partner>)
    ensures multiset(KycFlags(partners))[true] == CountWhere(partners, KycVerified)
    ensures multiset(KycFlags(partners))[false] == CountWhere(partners, KycPending)
    ensures CountWhere(partners, KycVerified) + CountWhere(partners, KycPending) <= |partners|
  {
    if partners != [] {
      KycFlagsCount(partners[1..]);
      var head := if partners[0].kycDetails.Some? then [partners[0].kycDetails.value.isVerified] else [];
      assert KycFlags(partners) == head + KycFlags(partners[1..]);
      assert multiset(KycFlags(partners)) == multiset(head) + multiset(KycFlags(partners[1..]));
    }
  }

  /** Both totals count every partner once, and each status group counts
      the partners with that status. */
  lemma DashboardTotals(partners: seq<Partner>)
    ensures DashboardAnalytics(partners).partnerTotal == |partners|
    ensures DashboardAnalytics(partners).kycTotal == |partners|
    ensures forall s :: CountOf(DashboardAnalytics(partners).byStatus, s) == multiset(StatusKeys(partners))[s]
  {
    GroupCountProps(StatusKeys(partners));
    GroupCountProps(KycStatusKeys(partners));
    var groups := DashboardAnalytics(partners).byStatus;
    assert groups == GroupCount(StatusKeys(partners));
    forall s ensures CountOf(groups, s) == multiset(StatusKeys(partners))[s] {
      assert CountOf(GroupCount(StatusKeys(partners)), s) == multiset(StatusKeys(partners))[s];
    }
  }

  /** Verified and pending KYC count the partners with verified and with
      unverified KYC details, and together never exceed the number of partners. */
  lemma DashboardKycCounts(partners: seq<Partner>)
    ensures DashboardAnalytics(partners).verified == CountWhere(partners, KycVerified)
    ensures DashboardAnalytics(partners).pending == CountWhere(partners, KycPending)
    ensures DashboardAnalytics(partners).verified + DashboardAnalytics(partners).pending <= |partners|
  {
    var flags := KycFlags(partners);
    GroupCountProps(flags);
    KycFlagsCount(partners);
    assert CountOf(GroupCount(flags), true) == multiset(flags)[true];
    assert CountOf(GroupCount(flags), false) == multiset(flags)[false];
  }

  // ---------------------------------------------------------------------
  // KYC verdicts

  const KycVerdicts: set<string> := {"approved", "rejected"}
  const InvalidKycStatusMessage: string := "Invalid status. Must be either 'approved' or 'rejected'"
  const PartnerNotFoundMessage: string := "Partner not found"

  /** The `$set` of a KYC verdict on one partner: approval marks the KYC
      verified, rejection marks it rejected; remarks default to empty. */
  function KycVerdict(p: Partner, approved: bool, remarks: Option<string>, adminId: Id, now: int): (q: Partner)
    ensures q.kycStatus == Some(if approved then "verified" else "rejected")
    ensures q.kycDetails.Some? && q.kycDetails.value.isVerified == approved
    ensures q.kycDetails.value.verificationRemarks == OrElse(remarks, "")
    ensures q.kycDetails.value.verifiedAt == Some(now) && q.kycDetails.value.verifiedBy == Some(adminId)
    ensures q.(kycStatus := p.kycStatus, kycDetails := p.kycDetails) == p
  {
    p.(kycStatus := Some(if approved then "verified" else "rejected"),
       kycDetails := Some(KycDetails(approved, OrElse(remarks, ""), Some(now), Some(adminId))))
  }

  /** `verifyPartnerKYC`: the verdict is checked before the partner is
      looked up; only a found partner with a valid verdict changes. */
  function VerifyPartnerKyc(partners: seq<Partner>, partnerId: Id, status: Option<string>,
                            remarks: Option<string>, adminId: Id, now: int): (r: (Reply, seq<Partner>))
    ensures !(Present(status) && status.value in KycVerdicts) ==>
              r == (Reply(400, InvalidKycStatusMessage), partners)
    ensures Present(status) && status.value in KycVerdicts && FindPartnerById(partners, partnerId).None? ==>
              r == (Reply(404, PartnerNotFoundMessage), partners)
    ensures r.0.status == 200 <==>
              Present(status) && status.value in KycVerdicts && FindPartnerById(partners, partnerId).Some?
    ensures r.0.status == 200 ==>
              var i := FindPartnerById(partners, partnerId).value;
              r.1 == partners[i := KycVerdict(partners[i], status.value == "approved", remarks, adminId, now)]
  {
    if !Present(status) || status.value !in KycVerdicts then (Reply(400, InvalidKycStatusMessage), partners)
    else match FindPartnerById(partners, partnerId)
      case None => (Reply(404, PartnerNotFoundMessage), partners)
      case Some(i) =>
        (Reply(200, "Partner KYC " + status.value + " successfully"),
         partners[i := KycVerdict(partners[i], status.value == "approved", remarks, adminId, now)])
  }

  // ---------------------------------------------------------------------
  // Partner status

  const PartnerStatuses: set<string> := {"pending", "under_review", "approved", "rejected", "blocked"}
  const InvalidStatusMessage: string :=
    "Invalid status. Must be one of: pending, under_review, approved, rejected, blocked"
  const NoKycMessage: string := "Cannot approve partner without KYC verification"
  const NoProfileMessage: string := "Cannot approve partner without completed profile"

  /** `status.toLowerCase().trim().replace(/\s+/g, '_')`: the words of the
      lower-cased status joined with `_`. */
  function NormaliseStatus(s: string): (r: string)
    ensures r == Unwords(Words(ToLower(s)), '_')
    ensures NoSpace(r) && NoUpper(r)
  {
    var t := Trim(ToLower(s));
    TrimCollapseWords(ToLower(s), '_');
    TrimNoUpper(ToLower(s));
    CollapseSpacesClean(t, '_');
    CollapseSpacesNoUpper(t, '_');
    CollapseSpaces(t, '_')
  }

  /** A string without white space or upper-case letters is its own normal form. */
  lemma NormaliseIdentity(s: string)
    requires NoSpace(s) && NoUpper(s)
    ensures NormaliseStatus(s) == s
  {
    assert ToLower(s) == s;
    TrimIdentity(s);
    CollapseSpacesIdentity(s, '_');
  }

  /** Normalising twice is normalising once. */
  lemma NormaliseIdempotent(s: string)
    ensures NormaliseStatus(NormaliseStatus(s)) == NormaliseStatus(s)
  {
    NormaliseIdentity(NormaliseStatus(s));
  }

  /** Every accepted status is already in normal form. */
  lemma AcceptedStatusesNormal(v: string)
    requires v in PartnerStatuses
    ensures NormaliseStatus(v) == v
  {
    NormaliseIdentity(v);
  }

  /** The example of the handler's own comment: "Under Review" becomes "under_review". */
  lemma NormaliseUnderReview()
    ensures NormaliseStatus("Under Review") == "under_review"
  {
    LowerUnderReview();
    TrimUnderReview();
    CollapseUnderReview();
  }

  /** A status with any white space around it, in any case, normalises to
      its lower-case form. */
  lemma NormalisePadded(pre: string, v: string, post: string)
    requires AllSpace(pre) && AllSpace(post) && v != [] && NoSpace(v)
    ensures NormaliseStatus(pre + v + post) == ToLower(v)
  {
    var lv := ToLower(v);
    ToLowerAppend(pre + v, post);
    ToLowerAppend(pre, v);
    ToLowerSpaces(pre);
    ToLowerSpaces(post);
    ToLowerSpaces(v);
    assert pre + lv + post == pre + (lv + post);
    WordsSkipSpace(pre, lv + post);
    WordsDropSpace(lv, post);
    WordsOfWord(lv);
  }

  /** Two words separated by any run of white space are joined by one `_`. */
  lemma NormaliseTwoWords(a: string, gap: string, b: string)
    requires a != [] && b != [] && NoSpace(a) && NoSpace(b) && gap != [] && AllSpace(gap)
    ensures NormaliseStatus(a + gap + b) == ToLower(a) + "_" + ToLower(b)
  {
    var la, lb := ToLower(a), ToLower(b);
    ToLowerAppend(a + gap, b);
    ToLowerAppend(a, gap);
    ToLowerSpaces(a);
    ToLowerSpaces(gap);
    ToLowerSpaces(b);
    var t := la + gap + lb;
    assert t == la + (gap + lb);
    LeadingWordPrefix(la, gap + lb);
    WordsLead(t);
    assert t[|la|..] == gap + lb;
    WordsSkipSpace(gap, lb);
    WordsOfWord(lb);
    UnwordsCons(la, [lb], '_');
  }

  /** A padded, capitalised status is accepted. */
  lemma NormalisePaddedExample()
    ensures NormaliseStatus(" Approved ") == "approved"
  {
    assert " Approved " == " " + "Approved" + " ";
    assert NoSpace("Approved");
    NormalisePadded(" ", "Approved", " ");
    LowerApproved();
  }

  /** Words several spaces apart are joined by one `_`. */
  lemma NormaliseSpacedExample()
    ensures NormaliseStatus("UNDER" + "   " + "REVIEW") == "under" + "_" + "review"
  {
    var a, gap, b := "UNDER", "   ", "REVIEW";
    assert NoSpace(a) && NoSpace(b) && AllSpace(gap);
    NormaliseTwoWords(a, gap, b);
    LowerUnderAndReview();
  }

  lemma LowerApproved()
    ensures ToLower("Approved") == "approved"
  {
    var r := ToLower("Approved");
    assert r[0] == 'a';
    assert forall i :: 1 <= i < 8 ==> r[i] == "Approved"[i];
  }

  lemma LowerUnderAndReview()
    ensures ToLower("UNDER") == "under" && ToLower("REVIEW") == "review"
  {
    var u := ToLower("UNDER");
    assert u[0] == 'u' && u[1] == 'n' && u[2] == 'd' && u[3] == 'e' && u[4] == 'r';
    var v := ToLower("REVIEW");
    assert v[0] == 'r' && v[1] == 'e' && v[2] == 'v' && v[3] == 'i' && v[4] == 'e' && v[5] == 'w';
  }

  lemma LowerUnderReview()
    ensures ToLower("Under Review") == "under review"
  {
    var r := ToLower("Under Review");
    assert r[0] == 'u' && r[6] == 'r';
    assert forall i :: 0 <= i < 12 && i != 0 && i != 6 ==> r[i] == "Under Review"[i];
  }

  lemma TrimUnderReview()
    ensures Trim("under review") == "under review"
  {
    var s := "under review";
    assert !IsSpace(s[0]) && !IsSpace(s[|s| - 1]);
    assert TrimStart(s) == s;
  }

  lemma CollapseUnderReview()
    ensures CollapseSpaces("under review", '_') == "under_review"
  {
    assert NoSpace("under");
    assert NoSpace("review");
    CollapseSingleSpace("under", ' ', "review", '_');
    assert "under" + [' '] + "review" == "under review";
    assert "under" + ['_'] + "review" == "under_review";
  }

  /** The approval preconditions, in the order they are checked. */
  function ApprovalCheck(p: Partner): (r: Option<Reply>)
    ensures r.None? <==> KycVerified(p) && p.profileCompleted
    ensures !KycVerified(p) ==> r == Some(Reply(400, NoKycMessage))
    ensures KycVerified(p) && !p.profileCompleted ==> r == Some(Reply(400, NoProfileMessage))
  {
    if !(p.kycDetails.Some? && p.kycDetails.value.isVerified) then Some(Reply(400, NoKycMessage))
    else if !p.profileCompleted then Some(Reply(400, NoProfileMessage))
    else None
  }

  /** The `$set` of a status change on one partner. */
  function StatusChange(p: Partner, status: string, remarks: Option<string>, adminId: Id, now: int): (q: Partner)
    ensures q.status == Some(status) && q.statusRemarks == Some(OrElse(remarks, ""))
    ensures q.statusUpdatedAt == Some(now) && q.statusUpdatedBy == Some(adminId)
    ensures q.(status := p.status, statusRemarks := p.statusRemarks,
               statusUpdatedAt := p.statusUpdatedAt, statusUpdatedBy := p.statusUpdatedBy) == p
  {
    p.(status := Some(status), statusRemarks := Some(OrElse(remarks, "")),
       statusUpdatedAt := Some(now), statusUpdatedBy := Some(adminId))
  }

  /** `updatePartnerStatus`: normalise, validate (400), look up (404),
      check the approval preconditions (400), then set the status. */
  function UpdatePartnerStatus(partners: seq<Partner>, partnerId: Id, status: Option<string>,
                               remarks: Option<string>, adminId: Id, now: int): (r: (Reply, seq<Partner>))
    ensures r.0.status != 200 ==> r.1 == partners
    ensures var n := if status.Some? then NormaliseStatus(status.value) else "";
            n !in PartnerStatuses ==> r.0 == Reply(400, InvalidStatusMessage)
    ensures var n := if status.Some? then NormaliseStatus(status.value) else "";
            n in PartnerStatuses && FindPartnerById(partners, partnerId).None? ==>
              r.0 == Reply(404, PartnerNotFoundMessage)
    ensures r.0.status == 200 ==>
              status.Some? && NormaliseStatus(status.value) in PartnerStatuses
              && FindPartnerById(partners, partnerId).Some?
              && var i := FindPartnerById(partners, partnerId).value;
                 (NormaliseStatus(status.value) == "approved" ==> KycVerified(partners[i]) && partners[i].profileCompleted)
                 && r.1 == partners[i := StatusChange(partners[i], NormaliseStatus(status.value), remarks, adminId, now)]
    ensures status.Some? && NormaliseStatus(status.value) in PartnerStatuses && FindPartnerById(partners, partnerId).Some? ==>
              var n := NormaliseStatus(status.value);
              var i := FindPartnerById(partners, partnerId).value;
              && (n == "approved" && ApprovalCheck(partners[i]).Some? ==> r == (ApprovalCheck(partners[i]).value, partners))
              && (n != "approved" || ApprovalCheck(partners[i]).None? ==>
                    r.0.status == 200 && r.1 == partners[i := StatusChange(partners[i], n, remarks, adminId, now)])
  {
    var n := if status.Some? then NormaliseStatus(status.value) else "";
    if n == "" || n !in PartnerStatuses then (Reply(400, InvalidStatusMessage), partners)
    else match FindPartnerById(partners, partnerId)
      case None => (Reply(404, PartnerNotFoundMessage), partners)
      case Some(i) => ChangeFound(partners, i, n, remarks, adminId, now)
  }

  /** The last two steps of `updatePartnerStatus` on the partner found at
      `i`: the approval preconditions, then the status change. */
  function ChangeFound(partners: seq<Partner>, i: nat, n: string, remarks: Option<string>,
                       adminId: Id, now: int): (r: (Reply, seq<Partner>))
    requires i < |partners|
    ensures r.0.status != 200 ==> r.1 == partners
    ensures r.0.status == 200 ==>
              (n == "approved" ==> KycVerified(partners[i]) && partners[i].profileCompleted)
              && r.1 == partners[i := StatusChange(partners[i], n, remarks, adminId, now)]
    ensures n == "approved" && ApprovalCheck(partners[i]).Some? ==> r == (ApprovalCheck(partners[i]).value, partners)
    ensures n != "approved" || ApprovalCheck(partners[i]).None? ==>
              r.0.status == 200 && r.1 == partners[i := StatusChange(partners[i], n, remarks, adminId, now)]
  {
    if n == "approved" && ApprovalCheck(partners[i]).Some? then (ApprovalCheck(partners[i]).value, partners)
    else (Reply(200, "Partner status updated to " + n + " successfully"),
          partners[i := StatusChange(partners[i], n, remarks, adminId, now)])
  }

  /** A partner whose KYC was approved and whose profile is complete can be
      approved in any spelling of the status; one whose KYC was rejected
      cannot, and the refusal names the KYC. */
  lemma KycVerdictGovernsApproval(partners: seq<Partner>, i: nat, remarks: Option<string>, adminId: Id,
                                  now: int, later: int, spelling: string)
    requires i < |partners| && NormaliseStatus(spelling) == "approved"
    requires forall j :: 0 <= j < |partners| && j != i ==> partners[j].id != partners[i].id
    ensures partners[i].profileCompleted ==>
              var after := partners[i := KycVerdict(partners[i], true, remarks, adminId, now)];
              UpdatePartnerStatus(after, partners[i].id, Some(spelling), None, adminId, later).0.status == 200
    ensures var after := partners[i := KycVerdict(partners[i], false, remarks, adminId, now)];
            UpdatePartnerStatus(after, partners[i].id, Some(spelling), None, adminId, later).0
              == Reply(400, NoKycMessage)
  {
    if partners[i].profileCompleted {
      VerifiedKycApproves(partners, i, remarks, adminId, now, later, spelling);
    }
    RejectedKycRefused(partners, i, remarks, adminId, now, later, spelling);
  }

  lemma VerifiedKycApproves(partners: seq<Partner>, i: nat, remarks: Option<string>, adminId: Id,
                            now: int, later: int, spelling: string)
    requires i < |partners| && NormaliseStatus(spelling) == "approved" && partners[i].profileCompleted
    requires forall j :: 0 <= j < |partners| && j != i ==> partners[j].id != partners[i].id
    ensures var after := partners[i := KycVerdict(partners[i], true, remarks, adminId, now)];
            UpdatePartnerStatus(after, partners[i].id, Some(spelling), None, adminId, later).0.status == 200
  {
    FoundAfterVerdict(partners, i, true, remarks, adminId, now);
  }

  lemma RejectedKycRefused(partners: seq<Partner>, i: nat, remarks: Option<string>, adminId: Id,
                           now: int, later: int, spelling: string)
    requires i < |partners| && NormaliseStatus(spelling) == "approved"
    requires forall j :: 0 <= j < |partners| && j != i ==> partners[j].id != partners[i].id
    ensures var after := partners[i := KycVerdict(partners[i], false, remarks, adminId, now)];
            UpdatePartnerStatus(after, partners[i].id, Some(spelling), None, adminId, later).0
              == Reply(400, NoKycMessage)
  {
    var after := partners[i := KycVerdict(partners[i], false, remarks, adminId, now)];
    FoundAfterVerdict(partners, i, false, remarks, adminId, now);
    assert !KycVerified(after[i]);
    assert ApprovalCheck(after[i]) == Some(Reply(400, NoKycMessage));
    assert NormaliseStatus(spelling) in PartnerStatuses;
  }

  /** With unique ids, the partner given a KYC verdict is found where it was. */
  lemma FoundAfterVerdict(partners: seq<Partner>, i: nat, approved: bool, remarks: Option<string>,
                          adminId: Id, now: int)
    requires i < |partners|
    requires forall j :: 0 <= j < |partners| && j != i ==> partners[j].id != partners[i].id
    ensures var after := partners[i := KycVerdict(partners[i], approved, remarks, adminId, now)];
            FindPartnerById(after, partners[i].id) == Some(i)
  {
    var id := partners[i].id;
    var after := partners[i := KycVerdict(partners[i], approved, remarks, adminId, now)];
    assert after[i].id == id;
    assert forall j :: 0 <= j < |after| && j != i ==> after[j].id != id;
  }

  // ---------------------------------------------------------------------
  // Completing a booking

  const CompletedStatus: string := "completed"
  const CancelledStatus: string := "cancelled"

  /** The checks and the in-place update of `completeBooking` on one booking. */
  function CompleteTransition(b: Booking, now: int): (r: Result<Booking, Reply>)
    ensures b.status == CompletedStatus ==> r == Err(Reply(400, "Booking is already completed"))
    ensures b.status == CancelledStatus ==> r == Err(Reply(400, "Cannot complete a cancelled booking"))
    ensures r.Ok? <==> b.status != CompletedStatus && b.status != CancelledStatus
    ensures r.Ok? ==> r.value.status == CompletedStatus && r.value.completedAt == Some(now)
                      && r.value.updatedAt == now
    ensures r.Ok? ==> r.value.(status := b.status, completedAt := b.completedAt, updatedAt := b.updatedAt) == b
  {
    if b.status == CompletedStatus then Err(Reply(400, "Booking is already completed"))
    else if b.status == CancelledStatus then Err(Reply(400, "Cannot complete a cancelled booking"))
    else Ok(b.(status := CompletedStatus, completedAt := Some(now), updatedAt := now))
  }

  /** Completion is final: completing again is refused, and a valid booking stays valid. */
  lemma CompleteTwiceRejected(b: Booking, now: int, later: int)
    requires CompleteTransition(b, now).Ok?
    ensures CompleteTransition(CompleteTransition(b, now).value, later) == Err(Reply(400, "Booking is already completed"))
    ensures WellFormed(b) ==> WellFormed(CompleteTransition(b, now).value)
  {
  }

  /** `completeBooking`: 404 for an unknown booking; otherwise the
      transition's refusal, or the booking marked completed in place. */
  method CompleteBooking(db: Database, bookingId: Id, now: int) returns (reply: Reply)
    modifies db`bookings
    ensures bookingId !in old(db.bookings) ==>
              reply == Reply(404, "Booking not found") && db.bookings == old(db.bookings)
    ensures bookingId in old(db.bookings) && CompleteTransition(old(db.bookings)[bookingId], now).Err? ==>
              reply == CompleteTransition(old(db.bookings)[bookingId], now).error && db.bookings == old(db.bookings)
    ensures bookingId in old(db.bookings) && CompleteTransition(old(db.bookings)[bookingId], now).Ok? ==>
              reply == Reply(200, "Booking marked as completed")
              && db.bookings == old(db.bookings)[bookingId := CompleteTransition(old(db.bookings)[bookingId], now).value]
  {
    if bookingId !in db.bookings {
      return Reply(404, "Booking not found");
    }
    var b := db.bookings[bookingId];
    if b.status == CompletedStatus {
      return Reply(400, "Booking is already completed");
    }
    if b.status == CancelledStatus {
      return Reply(400, "Cannot complete a cancelled booking");
    }
    b := b.(status := CompletedStatus);
    b := b.(completedAt := Some(now));
    b := b.(updatedAt := now);
    db.bookings := db.bookings[bookingId := b];
    reply := Reply(200, "Booking marked as completed");
  }

  // ---------------------------------------------------------------------
  // Paginated user list

  datatype UserRow = UserRow(slNo: int, id: Id, customerName: Option<string>, phoneNo: Option<string>,
                             email: Option<string>, address: string, noOfBookings: nat,
                             accountStatus: Option<string>, createdAt: int)

  /** The object filled by the `forEach` over the booking counts: a later
      entry for the same user overwrites an earlier one. */
  function CountMap(counts: seq<Group<Id>>): map<Id, nat>
  {
    if counts == [] then map[]
    else CountMap(counts[..|counts| - 1])[counts[|counts| - 1].key := counts[|counts| - 1].count]
  }

  /** `bookingCountMap[id] || 0`. */
  function BookingsOf(countMap: map<Id, nat>, id: Id): nat
  {
    if id in countMap then countMap[id] else 0
  }

  /** The serial number of the row at `index` on page `page`. */
  function SerialNumber(page: int, limit: int, index: int): int
  {
    (page - 1) * limit + index + 1
  }

  /** `getAllUsers` after the query: the page of users as the database
      returns it and the per-user booking counts of the aggregation, turned
      into numbered rows. */
  method GetAllUsers(page: int, limit: int, users: seq<User>, bookingCounts: seq<Group<Id>>)
    returns (rows: seq<UserRow>)
    ensures |rows| == |users|
    ensures forall i :: 0 <= i < |rows| ==> rows[i].slNo == SerialNumber(page, limit, i)
    ensures forall i :: 0 <= i < |rows| ==>
              rows[i].id == users[i].id && rows[i].customerName == users[i].name
              && rows[i].phoneNo == users[i].phone && rows[i].email == users[i].email
              && rows[i].accountStatus == users[i].status && rows[i].createdAt == users[i].createdAt
    ensures forall i :: 0 <= i < |rows| ==> rows[i].address == OrElse(users[i].address, "N/A")
    ensures forall i :: 0 <= i < |rows| ==>
              rows[i].noOfBookings == BookingsOf(CountMap(bookingCounts), users[i].id)
  {
    var skip := (page - 1) * limit;
    var countMap: map<Id, nat> := map[];
    var k := 0;
    while k < |bookingCounts|
      invariant 0 <= k <= |bookingCounts|
      invariant countMap == CountMap(bookingCounts[..k])
    {
      assert bookingCounts[..k + 1][..k] == bookingCounts[..k];
      countMap := countMap[bookingCounts[k].key := bookingCounts[k].count];
      k := k + 1;
    }
    assert bookingCounts[..k] == bookingCounts;
    rows := [];
    var i := 0;
    while i < |users|
      invariant 0 <= i <= |users| && |rows| == i
      invariant forall j :: 0 <= j < i ==> rows[j].slNo == SerialNumber(page, limit, j)
      invariant forall j :: 0 <= j < i ==>
                  rows[j].id == users[j].id && rows[j].customerName == users[j].name
                  && rows[j].phoneNo == users[j].phone && rows[j].email == users[j].email
                  && rows[j].accountStatus == users[j].status && rows[j].createdAt == users[j].createdAt
      invariant forall j :: 0 <= j < i ==> rows[j].address == OrElse(users[j].address, "N/A")
      invariant forall j :: 0 <= j < i ==> rows[j].noOfBookings == BookingsOf(countMap, users[j].id)
    {
      var u := users[i];
      var n := if u.id in countMap then countMap[u.id] else 0;
      rows := rows + [UserRow(skip + i + 1, u.id, u.name, u.phone, u.email, OrElse(u.address, "N/A"),
                              n, u.status, u.createdAt)];
      i := i + 1;
    }
  }

  lemma {:induction false} CountMapLast(counts: seq<Group<Id>>, k: Id)
    ensures k in CountMap(counts) <==> exists i :: 0 <= i < |counts| && counts[i].key == k
    ensures DistinctKeys(counts) ==> BookingsOf(CountMap(counts), k) == CountOf(counts, k)
  {
    if counts != [] {
      var init := counts[..|counts| - 1];
      var last := counts[|counts| - 1];
      CountMapLast(init, k);
      assert forall i :: 0 <= i < |init| ==> init[i] == counts[i];
      if DistinctKeys(counts) {
        DistinctInit(counts);
        CountOfSplit(init, last, k);
        assert counts == init + [last];
      }
    }
  }

  lemma {:induction false} KeysMembers<K>(groups: seq<Group<K>>, k: K)
    ensures k in Keys(groups) <==> exists i :: 0 <= i < |groups| && groups[i].key == k
  {
    if groups != [] {
      KeysMembers(groups[1..], k);
      assert forall i :: 1 <= i < |groups| ==> groups[1..][i - 1] == groups[i];
    }
  }

  lemma {:induction false} DistinctInit<K>(groups: seq<Group<K>>)
    requires groups != [] && DistinctKeys(groups)
    ensures DistinctKeys(groups[..|groups| - 1])
    ensures groups[|groups| - 1].key !in Keys(groups[..|groups| - 1])
  {
    var init := groups[..|groups| - 1];
    if |groups| > 1 {
      DistinctInit(groups[1..]);
      assert groups[1..][..|groups[1..]| - 1] == init[1..];
      assert groups[1..][|groups[1..]| - 1] == groups[|groups| - 1];
      KeysMembers(groups[1..], groups[0].key);
      KeysMembers(init[1..], groups[0].key);
      assert groups[0].key !in Keys(init[1..]);
      assert init[0] == groups[0];
    }
  }

  lemma {:induction false} CountOfSplit<K>(init: seq<Group<K>>, last: Group<K>, k: K)
    requires last.key !in Keys(init)
    ensures CountOf(init + [last], k) == if k == last.key then last.count else CountOf(init, k)
  {
    if init == [] {
      assert init + [last] == [last];
    } else {
      assert (init + [last])[1..] == init[1..] + [last];
      CountOfSplit(init[1..], last, k);
      if k == last.key {
        assert init[0].key != k;
      }
    }
  }

  /** Each user's row shows the number of bookings made by that user, when
      the counts are the grouping of the bookings' users; a user without
      bookings shows 0. */
  lemma RowBookingsAreCounts(bookingUsers: seq<Id>, id: Id)
    ensures BookingsOf(CountMap(GroupCount(bookingUsers)), id) == multiset(bookingUsers)[id]
    ensures id !in bookingUsers ==> BookingsOf(CountMap(GroupCount(bookingUsers)), id) == 0
  {
    GroupCountProps(bookingUsers);
    CountMapLast(GroupCount(bookingUsers), id);
  }

  /** Serial numbers never repeat across pages of the same size: each
      (page, index) pair has its own number, and numbers are positive. */
  lemma SerialNumbersDistinct(limit: int, p1: int, i1: int, p2: int, i2: int)
    requires 0 < limit && 1 <= p1 && 1 <= p2 && 0 <= i1 < limit && 0 <= i2 < limit
    ensures SerialNumber(p1, limit, i1) >= 1
    ensures SerialNumber(p1, limit, i1) == SerialNumber(p2, limit, i2) ==> p1 == p2 && i1 == i2
  {
    if p1 < p2 {
      assert (p2 - 1) * limit >= p1 * limit by {
        assert p2 - 1 >= p1;
        MulMonotone(p1, p2 - 1, limit);
      }
      assert (p1 - 1) * limit + limit == p1 * limit;
    } else if p2 < p1 {
      assert (p1 - 1) * limit >= p2 * limit by {
        MulMonotone(p2, p1 - 1, limit);
      }
      assert (p2 - 1) * limit + limit == p2 * limit;
    }
    assert (p1 - 1) * limit >= 0 by {
      MulMonotone(0, p1 - 1, limit);
    }
  }

  lemma MulMonotone(a: int, b: int, c: int)
    requires a <= b && 0 <= c
    ensures a * c <= b * c
  {
  }
}
