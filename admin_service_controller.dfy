/** The service catalogue as the admin edits it: categories,
    sub-categories, services and sub-services, their validation and
    linkage, and the read-side shaping of icons and sub-service defaults. */
module AdminServiceController {
  import opened Common
  import opened Text
  import opened BookingSchema
  import opened Store

  const ActiveStatus: string := "active"

  // ---------------------------------------------------------------------
  // Creating a service under a sub-category

  /** Every service that names an existing sub-category is listed in it. */
  predicate ServicesLinked(services: map<Id, Service>, subCategories: map<Id, SubCategory>)
  {
    forall sid :: sid in services && services[sid].subCategory.Some?
                  && services[sid].subCategory.value in subCategories ==>
                    sid in subCategories[services[sid].subCategory.value].services
  }

  function NewService(id: Id, subCategory: Id, name: string, description: string, icon: string): Service
  {
    Service(id, Some(subCategory), None, Some(name), Some(description), Some(icon), None, None, None, [], None, None)
  }

  /** `createService`: validation (400, 400, 404), then the new service is
      saved and its id appended to its sub-category's list. */
  method CreateService(db: Database, id: Id, name: Option<string>, description: Option<string>,
                       subCategory: Option<Id>, file: Option<string>) returns (reply: Reply)
    requires id !in db.services
    modifies db`services, db`subCategories
    ensures !(Present(name) && Present(description) && Present(subCategory)) ==>
              reply == Reply(400, "Name, description, subCategory, basePrice, and duration are required")
    ensures Present(name) && Present(description) && Present(subCategory) && file.None? ==>
              reply == Reply(400, "Image file is required")
    ensures Present(name) && Present(description) && Present(subCategory) && file.Some?
            && subCategory.value !in old(db.subCategories) ==>
              reply == Reply(404, "Category not found")
    ensures reply.status == 201 <==>
              Present(name) && Present(description) && Present(subCategory) && file.Some?
              && subCategory.value in old(db.subCategories)
    ensures reply.status != 201 ==>
              db.services == old(db.services) && db.subCategories == old(db.subCategories)
    ensures reply.status == 201 ==>
              var sc := subCategory.value;
              && db.services == old(db.services)[id := NewService(id, sc, name.value, description.value, Basename(file.value))]
              && db.subCategories == old(db.subCategories)[sc := old(db.subCategories)[sc].(services := old(db.subCategories)[sc].services + [id])]
    ensures ServicesLinked(old(db.services), old(db.subCategories)) ==> ServicesLinked(db.services, db.subCategories)
  {
    if !Present(name) || !Present(description) || !Present(subCategory) {
      return Reply(400, "Name, description, subCategory, basePrice, and duration are required");
    }
    if file.None? {
      return Reply(400, "Image file is required");
    }
    var sc := subCategory.value;
    if sc !in db.subCategories {
      return Reply(404, "Category not found");
    }
    var parent := db.subCategories[sc];
    var service := NewService(id, sc, name.value, description.value, Basename(file.value));
    db.services := db.services[id := service];
    parent := parent.(services := parent.services + [id]);
    db.subCategories := db.subCategories[sc := parent];
    reply := Reply(201, "Service created successfully");
  }

  // ---------------------------------------------------------------------
  // Adding a sub-service to a service

  datatype CatalogueChange = CatalogueChange(reply: Reply, services: map<Id, Service>,
                                             subServices: map<Id, SubService>)

  function AddedSubService(id: Id, serviceId: Id, name: string, description: string,
                           basePrice: string, duration: string, file: string): SubService
  {
    SubService(id, Some(serviceId), Some(Trim(name)), Some(Trim(description)), None, Some(basePrice),
               Some(duration), [Basename(file)], Some(ActiveStatus), None, None, None)
  }

  predicate AddSubServiceFields(name: Option<string>, description: Option<string>, basePrice: Option<string>,
                                duration: Option<string>)
  {
    Present(name) && Present(description) && Present(basePrice) && Present(duration)
  }

  predicate AddSubServiceAccepted(services: map<Id, Service>, serviceId: Id, name: Option<string>,
                                  description: Option<string>, basePrice: Option<string>,
                                  duration: Option<string>, file: Option<string>)
  {
    AddSubServiceFields(name, description, basePrice, duration) && file.Some? && serviceId in services
  }

  /** The checks and the writes of `addSubService`; `last` is the reply of
      the final step, the only thing in which the code as written and the
      corrected handler differ. */
  function AddSubServiceSteps(services: map<Id, Service>, subServices: map<Id, SubService>, serviceId: Id,
                              name: Option<string>, description: Option<string>, basePrice: Option<string>,
                              duration: Option<string>, file: Option<string>, id: Id, last: Reply): CatalogueChange
  {
    if !Present(name) || !Present(description) || !Present(basePrice) || !Present(duration) then
      CatalogueChange(Reply(400, "All fields are required"), services, subServices)
    else if file.None? then
      CatalogueChange(Reply(400, "Icon file is required"), services, subServices)
    else if serviceId !in services then
      CatalogueChange(Reply(404, "Parent service not found"), services, subServices)
    else
      var sub := AddedSubService(id, serviceId, name.value, description.value, basePrice.value,
                                 duration.value, file.value);
      var parent := services[serviceId];
      CatalogueChange(last, services[serviceId := parent.(subServices := parent.subServices + [id])],
                      subServices[id := sub])
  }

  /** `addSubService` as written: the response refers to a variable whose
      definition is commented out, so after the writes the handler throws
      and answers 500. */
  function AddSubServiceAsWritten(services: map<Id, Service>, subServices: map<Id, SubService>, serviceId: Id,
                                  name: Option<string>, description: Option<string>, basePrice: Option<string>,
                                  duration: Option<string>, file: Option<string>, id: Id): (r: CatalogueChange)
    ensures !AddSubServiceFields(name, description, basePrice, duration) ==>
              r == CatalogueChange(Reply(400, "All fields are required"), services, subServices)
    ensures AddSubServiceFields(name, description, basePrice, duration) && file.None? ==>
              r == CatalogueChange(Reply(400, "Icon file is required"), services, subServices)
    ensures AddSubServiceFields(name, description, basePrice, duration) && file.Some? && serviceId !in services ==>
              r == CatalogueChange(Reply(404, "Parent service not found"), services, subServices)
    ensures AddSubServiceAccepted(services, serviceId, name, description, basePrice, duration, file) ==>
              && r.reply == Reply(500, "populatedSubService is not defined")
              && r.subServices == subServices[id := AddedSubService(id, serviceId, name.value, description.value,
                                                                    basePrice.value, duration.value, file.value)]
              && r.services == services[serviceId := services[serviceId].(subServices := services[serviceId].subServices + [id])]
  {
    AddSubServiceSteps(services, subServices, serviceId, name, description, basePrice, duration, file, id,
                       Reply(500, "populatedSubService is not defined"))
  }

  /** `addSubService` as intended: the same checks and writes, answered with 201. */
  function AddSubService(services: map<Id, Service>, subServices: map<Id, SubService>, serviceId: Id,
                         name: Option<string>, description: Option<string>, basePrice: Option<string>,
                         duration: Option<string>, file: Option<string>, id: Id): (r: CatalogueChange)
    ensures !AddSubServiceFields(name, description, basePrice, duration) ==>
              r == CatalogueChange(Reply(400, "All fields are required"), services, subServices)
    ensures AddSubServiceFields(name, description, basePrice, duration) && file.None? ==>
              r == CatalogueChange(Reply(400, "Icon file is required"), services, subServices)
    ensures AddSubServiceFields(name, description, basePrice, duration) && file.Some? && serviceId !in services ==>
              r == CatalogueChange(Reply(404, "Parent service not found"), services, subServices)
    ensures r.reply.status == 201 <==>
              AddSubServiceAccepted(services, serviceId, name, description, basePrice, duration, file)
    ensures r.reply.status == 201 ==> r.reply == Reply(201, "Sub-service added successfully")
    ensures r.reply.status != 201 ==> r.services == services && r.subServices == subServices
    ensures r.reply.status == 201 ==>
              && r.subServices == subServices[id := AddedSubService(id, serviceId, name.value, description.value,
                                                                    basePrice.value, duration.value, file.value)]
              && r.services == services[serviceId := services[serviceId].(subServices := services[serviceId].subServices + [id])]
  {
    AddSubServiceSteps(services, subServices, serviceId, name, description, basePrice, duration, file, id,
                       Reply(201, "Sub-service added successfully"))
  }

  /** The discrepancy: on every accepted request the code as written stores
      the sub-service and links it, exactly as intended, yet answers 500
      where the corrected handler answers 201. */
  lemma AddSubServiceAsWrittenFails(services: map<Id, Service>, subServices: map<Id, SubService>, serviceId: Id,
                                    name: Option<string>, description: Option<string>, basePrice: Option<string>,
                                    duration: Option<string>, file: Option<string>, id: Id)
    requires AddSubServiceAccepted(services, serviceId, name, description, basePrice, duration, file)
    ensures AddSubServiceAsWritten(services, subServices, serviceId, name, description, basePrice, duration, file, id).reply.status == 500
    ensures AddSubService(services, subServices, serviceId, name, description, basePrice, duration, file, id).reply.status == 201
    ensures AddSubServiceAsWritten(services, subServices, serviceId, name, description, basePrice, duration, file, id).subServices
            == AddSubService(services, subServices, serviceId, name, description, basePrice, duration, file, id).subServices
    ensures AddSubServiceAsWritten(services, subServices, serviceId, name, description, basePrice, duration, file, id).services
            == AddSubService(services, subServices, serviceId, name, description, basePrice, duration, file, id).services
  {
  }

  /** A concrete request that shows it. */
  lemma AddSubServiceAsWrittenExample()
    ensures var services := map["s1" := NewService("s1", "c1", "Cleaning", "Home cleaning", "icon.png")];
            AddSubServiceAsWritten(services, map[], "s1", Some("Sofa"), Some("Sofa cleaning"), Some("499"),
                                   Some("60"), Some("uploads/sofa.png"), "x1").reply.status == 500
  {
  }

  // ---------------------------------------------------------------------
  // Categories

  /** `updateServiceCategory`: 404 for a missing category; otherwise only
      a supplied name and an uploaded icon are set. */
  function UpdateServiceCategory(categories: map<Id, ServiceCategory>, categoryId: Id, name: Option<string>,
                                 iconFile: Option<string>): (r: (Reply, map<Id, ServiceCategory>))
    ensures categoryId !in categories ==> r == (Reply(404, "Service category not found"), categories)
    ensures categoryId in categories ==>
              r.0.status == 200 && r.1.Keys == categories.Keys
              && (forall k :: k in categories && k != categoryId ==> r.1[k] == categories[k])
              && r.1[categoryId].name == (if Present(name) then name.value else categories[categoryId].name)
              && r.1[categoryId].icon == (if Present(iconFile) then Basename(iconFile.value) else categories[categoryId].icon)
              && r.1[categoryId].(name := categories[categoryId].name, icon := categories[categoryId].icon)
                 == categories[categoryId]
  {
    if categoryId !in categories then (Reply(404, "Service category not found"), categories)
    else
      var c := categories[categoryId];
      var c1 := if Present(name) then c.(name := name.value) else c;
      var c2 := if Present(iconFile) then c1.(icon := Basename(iconFile.value)) else c1;
      (Reply(200, "Service category updated"), categories[categoryId := c2])
  }

  predicate HasActiveService(services: map<Id, Service>, categoryId: Id)
  {
    exists sid :: sid in services && services[sid].category == Some(categoryId)
                  && services[sid].status == Some(ActiveStatus)
  }

  /** `deleteServiceCategory`: 404 for a missing category, 400 while an
      active service belongs to it; only otherwise is it removed. */
  function DeleteServiceCategory(categories: map<Id, ServiceCategory>, services: map<Id, Service>,
                                 categoryId: Id): (r: (Reply, map<Id, ServiceCategory>))
    ensures categoryId !in categories ==> r == (Reply(404, "Service category not found"), categories)
    ensures categoryId in categories && HasActiveService(services, categoryId) ==>
              r == (Reply(400, "Cannot delete category with active services"), categories)
    ensures r.0.status == 200 <==> categoryId in categories && !HasActiveService(services, categoryId)
    ensures r.0.status == 200 ==> r.1 == categories - {categoryId}
    ensures r.0.status != 200 ==> r.1 == categories
  {
    if categoryId !in categories then (Reply(404, "Service category not found"), categories)
    else if HasActiveService(services, categoryId) then
      (Reply(400, "Cannot delete category with active services"), categories)
    else (Reply(200, "Service category deleted successfully"), categories - {categoryId})
  }

  /** `createCategory`: the icon is checked first, then name and
      description; a missing subtitle makes `.trim()` throw, answered 500. */
  function CreateCategory(categories: map<Id, ServiceCategory>, id: Id, name: Option<string>,
                          description: Option<string>, subtitle: Option<string>,
                          iconFile: Option<string>): (r: (Reply, map<Id, ServiceCategory>))
    requires id !in categories
    ensures iconFile.None? ==> r == (Reply(400, "Icon file is required"), categories)
    ensures iconFile.Some? && !(Present(name) && Present(description)) ==>
              r == (Reply(400, "Name and description are required"), categories)
    ensures iconFile.Some? && Present(name) && Present(description) && subtitle.None? ==>
              r.0.status == 500 && r.1 == categories
    ensures r.0.status == 201 ==>
              r.1 == categories[id := ServiceCategory(id, Trim(name.value), Trim(description.value), iconFile.value,
                                                      Some(ActiveStatus), Some(Trim(subtitle.value)), [])]
    ensures r.0.status == 201 <==> iconFile.Some? && Present(name) && Present(description) && subtitle.Some?
  {
    if iconFile.None? then (Reply(400, "Icon file is required"), categories)
    else if !Present(name) || !Present(description) then (Reply(400, "Name and description are required"), categories)
    else if subtitle.None? then (Reply(500, "Cannot read properties of undefined (reading 'trim')"), categories)
    else (Reply(201, "Category created successfully"),
          categories[id := ServiceCategory(id, Trim(name.value), Trim(description.value), iconFile.value,
                                           Some(ActiveStatus), Some(Trim(subtitle.value)), [])])
  }

  // ---------------------------------------------------------------------
  // Icon normalisation of `getAllCategories`

  const LocalHost: string := "http://localhost:9000/"
  const UploadsPath: string := "uploads/"
  const UploadsSeparator: string := "/uploads/"

  /** The icon as listed: after the first `/uploads/` when it is a local
      upload URL, after the host when it is another local URL, the last path
      segment when it holds a `/`, and unchanged otherwise. */
  function NormaliseIcon(icon: string): (r: string)
    ensures '/' !in icon ==> r == icon
  {
    if Contains(icon, LocalHost + UploadsPath) then
      assert LocalHost + UploadsPath == "http://localhost:9000" + UploadsSeparator;
      ContainsTail(icon, "http://localhost:9000", UploadsSeparator);
      ContainsChars(icon, LocalHost + UploadsPath, '/');
      SecondField(icon, UploadsSeparator)
    else if Contains(icon, LocalHost) then
      ContainsChars(icon, LocalHost, '/');
      SecondField(icon, LocalHost)
    else if '/' in icon then LastSegment(icon, '/')
    else icon
  }

  /** Rule 1: a local upload URL becomes the text after the first
      `/uploads/`, up to the next one (even one overlapping the text) or
      the end. */
  lemma IconUploadRule(icon: string)
    requires Contains(icon, LocalHost + UploadsPath)
    ensures Contains(icon, UploadsSeparator)
    ensures var r := NormaliseIcon(icon);
            var first := IndexOf(icon, UploadsSeparator).value;
            && OccursAt(icon, UploadsSeparator, first)
            && (forall j :: 0 <= j < first ==> !OccursAt(icon, UploadsSeparator, j))
            && icon[first + |UploadsSeparator|..first + |UploadsSeparator| + |r|] == r
            && !Contains(r, UploadsSeparator)
            && (forall j :: first + |UploadsSeparator| <= j < first + |UploadsSeparator| + |r| ==>
                  !OccursAt(icon, UploadsSeparator, j))
            && (first + |UploadsSeparator| + |r| == |icon|
                || OccursAt(icon, UploadsSeparator, first + |UploadsSeparator| + |r|))
  {
    assert LocalHost + UploadsPath == "http://localhost:9000" + UploadsSeparator;
    ContainsTail(icon, "http://localhost:9000", UploadsSeparator);
    SecondFieldShape(icon, UploadsSeparator);
  }

  /** Rule 2: any other local URL becomes the text after the first host
      prefix, up to the next one or the end. */
  lemma IconHostRule(icon: string)
    requires !Contains(icon, LocalHost + UploadsPath) && Contains(icon, LocalHost)
    ensures var r := NormaliseIcon(icon);
            var first := IndexOf(icon, LocalHost).value;
            && OccursAt(icon, LocalHost, first)
            && (forall j :: 0 <= j < first ==> !OccursAt(icon, LocalHost, j))
            && icon[first + |LocalHost|..first + |LocalHost| + |r|] == r
            && !Contains(r, LocalHost)
            && (forall j :: first + |LocalHost| <= j < first + |LocalHost| + |r| ==> !OccursAt(icon, LocalHost, j))
            && (first + |LocalHost| + |r| == |icon| || OccursAt(icon, LocalHost, first + |LocalHost| + |r|))
  {
    SecondFieldShape(icon, LocalHost);
  }

  /** Rule 3: any other path becomes its last segment; rule 4: a bare name
      is kept. */
  lemma IconSegmentRule(icon: string)
    requires !Contains(icon, LocalHost + UploadsPath) && !Contains(icon, LocalHost)
    ensures '/' !in NormaliseIcon(icon)
    ensures '/' in icon ==>
              exists prefix: string :: icon == prefix + NormaliseIcon(icon) && |prefix| > 0 && prefix[|prefix| - 1] == '/'
    ensures '/' !in icon ==> NormaliseIcon(icon) == icon
  {
    LastSegmentShape(icon, '/');
    if '/' in icon {
      var prefix :| icon == prefix + LastSegment(icon, '/') && (prefix == [] || prefix[|prefix| - 1] == '/');
    }
  }

  datatype CategoryView = CategoryView(id: Id, name: string, description: string, icon: string)

  /** `getAllCategories`: every stored category, in order, with its icon
      normalised and nothing else changed. */
  function ListCategories(categories: seq<ServiceCategory>): (views: seq<CategoryView>)
    ensures |views| == |categories|
    ensures forall i :: 0 <= i < |categories| ==>
              views[i].id == categories[i].id && views[i].name == categories[i].name
              && views[i].description == categories[i].description
              && views[i].icon == NormaliseIcon(categories[i].icon)
  {
    seq(|categories|, i requires 0 <= i < |categories| =>
      CategoryView(categories[i].id, categories[i].name, categories[i].description, NormaliseIcon(categories[i].icon)))
  }

  // ---------------------------------------------------------------------
  // Service analytics over the bookings the query selected

  datatype Analytics = Analytics(totalBookings: nat, totalRevenue: int, completed: nat, cancelled: nat, pending: nat)

  predicate IsCompleted(b: Booking) { b.status == "completed" }
  predicate IsCancelled(b: Booking) { b.status == "cancelled" }
  predicate IsPending(b: Booking) { b.status == "pending" }

  /** `bookings.reduce((sum, b) => sum + b.amount, 0)`. */
  function Revenue(bookings: seq<Booking>): int
  {
    if bookings == [] then 0 else bookings[0].amount + Revenue(bookings[1..])
  }

  /** The status of each booking, in order. */
  function BookingStatuses(bookings: seq<Booking>): (ss: seq<string>)
    ensures |ss| == |bookings|
    ensures forall i :: 0 <= i < |bookings| ==> ss[i] == bookings[i].status
  {
    seq(|bookings|, i requires 0 <= i < |bookings| => bookings[i].status)
  }

  /** `bookings.filter(b => b.status === st).length` is the number of
      times `st` occurs among the statuses. */
  lemma {:induction false} StatusCount(bookings: seq<Booking>, p: Booking -> bool, st: string)
    requires forall b :: p(b) <==> b.status == st
    ensures CountWhere(bookings, p) == multiset(BookingStatuses(bookings))[st]
  {
    if bookings != [] {
      StatusCount(bookings[1..], p, st);
      assert BookingStatuses(bookings) == [bookings[0].status] + BookingStatuses(bookings[1..]);
    }
  }

  /** `getServiceAnalytics`: the total, the revenue and the three status
      counts, each the number of bookings with that status; each count is
      bounded by the total and so is their sum, since a booking has one
      status. */
  function ServiceAnalytics(bookings: seq<Booking>): (a: Analytics)
    ensures a.totalBookings == |bookings|
    ensures a.totalRevenue == Revenue(bookings)
    ensures a.completed == multiset(BookingStatuses(bookings))["completed"]
    ensures a.cancelled == multiset(BookingStatuses(bookings))["cancelled"]
    ensures a.pending == multiset(BookingStatuses(bookings))["pending"]
    ensures a.completed <= a.totalBookings && a.cancelled <= a.totalBookings && a.pending <= a.totalBookings
    ensures a.completed + a.cancelled + a.pending <= a.totalBookings
  {
    StatusCountsWithinTotal(bookings);
    StatusCount(bookings, IsCompleted, "completed");
    StatusCount(bookings, IsCancelled, "cancelled");
    StatusCount(bookings, IsPending, "pending");
    Analytics(|bookings|, Revenue(bookings), CountWhere(bookings, IsCompleted),
              CountWhere(bookings, IsCancelled), CountWhere(bookings, IsPending))
  }

  lemma {:induction false} StatusCountsWithinTotal(bookings: seq<Booking>)
    ensures CountWhere(bookings, IsCompleted) + CountWhere(bookings, IsCancelled)
            + CountWhere(bookings, IsPending) <= |bookings|
  {
    if bookings != [] {
      StatusCountsWithinTotal(bookings[1..]);
    }
  }

  /** Revenue is additive over a split of the bookings. */
  lemma {:induction false} RevenueAppend(a: seq<Booking>, b: seq<Booking>)
    ensures Revenue(a + b) == Revenue(a) + Revenue(b)
  {
    if a != [] {
      assert (a + b)[1..] == a[1..] + b;
      RevenueAppend(a[1..], b);
    } else {
      assert a + b == b;
    }
  }

  // ---------------------------------------------------------------------
  // Sub-service listing defaults

  datatype SubServiceView = SubServiceView(id: Id, name: string, description: string, price: string,
                                           duration: string, isActive: bool, serviceName: string)

  /** The populated parent's name, when the reference resolves. */
  function ParentName(sub: SubService, services: map<Id, Service>): Option<string>
  {
    if sub.service.Some? && sub.service.value in services then services[sub.service.value].name else None
  }

  /** One row of `getAllSubServices`: each missing or empty field falls
      back to its placeholder, and `isActive` is true only when stored true. */
  function FormatSubService(sub: SubService, services: map<Id, Service>): (v: SubServiceView)
    ensures v.id == sub.id
    ensures Present(sub.name) ==> v.name == sub.name.value
    ensures !Present(sub.name) ==> v.name == "Unnamed Service"
    ensures Present(sub.description) ==> v.description == sub.description.value
    ensures !Present(sub.description) ==> v.description == "No description"
    ensures Present(sub.price) ==> v.price == sub.price.value
    ensures !Present(sub.price) ==> v.price == "0"
    ensures Present(sub.duration) ==> v.duration == sub.duration.value
    ensures !Present(sub.duration) ==> v.duration == "0"
    ensures v.isActive <==> sub.isActive == Some(true)
    ensures Present(ParentName(sub, services)) ==> v.serviceName == ParentName(sub, services).value
    ensures !Present(ParentName(sub, services)) ==> v.serviceName == "No Service Name"
  {
    SubServiceView(sub.id, OrElse(sub.name, "Unnamed Service"), OrElse(sub.description, "No description"),
                   OrElse(sub.price, "0"), OrElse(sub.duration, "0"), sub.isActive == Some(true),
                   OrElse(ParentName(sub, services), "No Service Name"))
  }

  // ---------------------------------------------------------------------
  // Creating a sub-service directly

  function CreatedSubService(id: Id, name: string, description: string, service: Id, price: string,
                             filename: string, includes: string, excludes: string): SubService
  {
    SubService(id, Some(service), Some(name), Some(description), Some(price), None, None, [filename],
               None, Some(true), Some(includes), Some(excludes))
  }

  /** `createSubService`: checks fields, then the price (`positive` stands
      for the numeric test on the raw value), then the id's form, then the
      parent, then the icon; only then is the sub-service stored, with its
      icon as a one-element list and active. */
  function CreateSubService(services: map<Id, Service>, subServices: map<Id, SubService>, id: Id,
                            name: Option<string>, description: Option<string>, service: Option<string>,
                            price: Option<string>, includes: Option<string>, excludes: Option<string>,
                            positive: string -> bool, filename: Option<string>): (r: (Reply, map<Id, SubService>))
    requires id !in subServices
    ensures r.0.status != 201 ==> r.1 == subServices
    ensures !(Present(name) && Present(description) && Present(service) && Present(price)
              && Present(includes) && Present(excludes)) ==>
              r.0 == Reply(400, "All fields are required")
    ensures Present(name) && Present(description) && Present(service) && Present(price)
            && Present(includes) && Present(excludes) ==>
              && (!positive(price.value) ==> r.0 == Reply(400, "Price must be a positive number"))
              && (positive(price.value) && !IsObjectId(service.value) ==> r.0 == Reply(400, "Invalid service ID"))
              && (positive(price.value) && IsObjectId(service.value) && service.value !in services ==>
                    r.0 == Reply(404, "Service not found"))
              && ((positive(price.value) && IsObjectId(service.value) && service.value in services
                   && !Present(filename)) ==> r.0 == Reply(400, "Icon image is required"))
    ensures r.0.status == 201 <==>
              Present(name) && Present(description) && Present(service) && Present(price)
              && Present(includes) && Present(excludes) && positive(price.value)
              && IsObjectId(service.value) && service.value in services && Present(filename)
    ensures r.0.status == 201 ==>
              r.1 == subServices[id := CreatedSubService(id, name.value, description.value, service.value,
                                                         price.value, filename.value, includes.value, excludes.value)]
              && r.1[id].icon == [filename.value] && r.1[id].isActive == Some(true)
  {
    if !Present(name) || !Present(description) || !Present(service) || !Present(price)
       || !Present(includes) || !Present(excludes) then
      (Reply(400, "All fields are required"), subServices)
    else if !positive(price.value) then (Reply(400, "Price must be a positive number"), subServices)
    else if !IsObjectId(service.value) then (Reply(400, "Invalid service ID"), subServices)
    else if service.value !in services then (Reply(404, "Service not found"), subServices)
    else if !Present(filename) then (Reply(400, "Icon image is required"), subServices)
    else
      (Reply(201, "Sub-Service created successfully"),
       subServices[id := CreatedSubService(id, name.value, description.value, service.value, price.value,
                                           filename.value, includes.value, excludes.value)])
  }

  // ---------------------------------------------------------------------
  // Updating a service or a sub-service in place

  /** The service after `updateService`'s assignments: each field takes a
      truthy new value or keeps its own; the icon changes only with a file. */
  function UpdatedService(s: Service, name: Option<string>, description: Option<string>,
                          basePrice: Option<string>, duration: Option<string>, file: Option<string>): (t: Service)
    ensures t.name == Supplied(name, s.name) && t.description == Supplied(description, s.description)
    ensures t.basePrice == Supplied(basePrice, s.basePrice) && t.duration == Supplied(duration, s.duration)
    ensures t.icon == (if file.Some? then Some(Basename(file.value)) else s.icon)
    ensures t.(name := s.name, description := s.description, basePrice := s.basePrice,
               duration := s.duration, icon := s.icon) == s
  {
    var icon := if file.Some? then Some(Basename(file.value)) else s.icon;
    s.(name := Supplied(name, s.name), description := Supplied(description, s.description),
       basePrice := Supplied(basePrice, s.basePrice), duration := Supplied(duration, s.duration), icon := icon)
  }

  /** An update that supplies nothing and uploads nothing leaves the service as it was. */
  lemma UpdatedServiceNothingSupplied(s: Service, name: Option<string>, description: Option<string>,
                                      basePrice: Option<string>, duration: Option<string>)
    requires !Present(name) && !Present(description) && !Present(basePrice) && !Present(duration)
    ensures UpdatedService(s, name, description, basePrice, duration, None) == s
  {
  }

  /** Repeating the same update changes nothing further. */
  lemma UpdatedServiceIdempotent(s: Service, name: Option<string>, description: Option<string>,
                                 basePrice: Option<string>, duration: Option<string>, file: Option<string>)
    ensures var t := UpdatedService(s, name, description, basePrice, duration, file);
            UpdatedService(t, name, description, basePrice, duration, file) == t
  {
  }

  method UpdateService(db: Database, serviceId: Id, name: Option<string>, description: Option<string>,
                       basePrice: Option<string>, duration: Option<string>, file: Option<string>)
    returns (reply: Reply)
    modifies db`services
    ensures serviceId !in old(db.services) ==>
              reply == Reply(404, "Service not found") && db.services == old(db.services)
    ensures serviceId in old(db.services) ==>
              reply == Reply(200, "Service updated successfully")
              && db.services == old(db.services)[serviceId :=
                   UpdatedService(old(db.services)[serviceId], name, description, basePrice, duration, file)]
  {
    if serviceId !in db.services {
      return Reply(404, "Service not found");
    }
    var service := db.services[serviceId];
    service := service.(name := Supplied(name, service.name));
    service := service.(description := Supplied(description, service.description));
    service := service.(basePrice := Supplied(basePrice, service.basePrice));
    service := service.(duration := Supplied(duration, service.duration));
    if file.Some? {
      service := service.(icon := Some(Basename(file.value)));
    }
    db.services := db.services[serviceId := service];
    reply := Reply(200, "Service updated successfully");
  }

  /** The sub-service after `updateSubService`'s assignments; an uploaded
      icon replaces the list with its one file name. */
  function UpdatedSubService(s: SubService, name: Option<string>, description: Option<string>,
                             basePrice: Option<string>, duration: Option<string>, file: Option<string>): (t: SubService)
    ensures t.name == Supplied(name, s.name) && t.description == Supplied(description, s.description)
    ensures t.basePrice == Supplied(basePrice, s.basePrice) && t.duration == Supplied(duration, s.duration)
    ensures t.icon == (if file.Some? then [Basename(file.value)] else s.icon)
    ensures t.(name := s.name, description := s.description, basePrice := s.basePrice,
               duration := s.duration, icon := s.icon) == s
  {
    var icon := if file.Some? then [Basename(file.value)] else s.icon;
    s.(name := Supplied(name, s.name), description := Supplied(description, s.description),
       basePrice := Supplied(basePrice, s.basePrice), duration := Supplied(duration, s.duration), icon := icon)
  }

  /** `updateSubService`: the parent service must exist (404), then the
      sub-service (404); the two need not be linked. */
  method UpdateSubService(db: Database, serviceId: Id, subServiceId: Id, name: Option<string>,
                          description: Option<string>, basePrice: Option<string>, duration: Option<string>,
                          file: Option<string>) returns (reply: Reply)
    modifies db`subServices
    ensures serviceId !in db.services ==>
              reply == Reply(404, "Service not found") && db.subServices == old(db.subServices)
    ensures serviceId in db.services && subServiceId !in old(db.subServices) ==>
              reply == Reply(404, "Sub-service not found") && db.subServices == old(db.subServices)
    ensures serviceId in db.services && subServiceId in old(db.subServices) ==>
              reply == Reply(200, "Sub-service updated successfully")
              && db.subServices == old(db.subServices)[subServiceId :=
                   UpdatedSubService(old(db.subServices)[subServiceId], name, description, basePrice, duration, file)]
  {
    if serviceId !in db.services {
      return Reply(404, "Service not found");
    }
    if subServiceId !in db.subServices {
      return Reply(404, "Sub-service not found");
    }
    var sub := db.subServices[subServiceId];
    sub := sub.(name := Supplied(name, sub.name));
    sub := sub.(description := Supplied(description, sub.description));
    sub := sub.(basePrice := Supplied(basePrice, sub.basePrice));
    sub := sub.(duration := Supplied(duration, sub.duration));
    if file.Some? {
      sub := sub.(icon := [Basename(file.value)]);
    }
    db.subServices := db.subServices[subServiceId := sub];
    reply := Reply(200, "Sub-service updated successfully");
  }

  // ---------------------------------------------------------------------
  // Removing references

  /** `ids.filter(id => id !== x)`. */
  function RemoveAll(ids: seq<Id>, x: Id): (r: seq<Id>)
    ensures x !in r
    ensures forall y :: y in r <==> y in ids && y != x
    ensures multiset(r) == multiset(ids)[x := 0]
    ensures |r| <= |ids|
  {
    if ids == [] then []
    else
      assert ids == [ids[0]] + ids[1..];
      if ids[0] == x then RemoveAll(ids[1..], x)
      else [ids[0]] + RemoveAll(ids[1..], x)
  }

  /** The filter keeps the other ids in their order: it distributes over concatenation. */
  lemma {:induction false} RemoveAllAppend(a: seq<Id>, b: seq<Id>, x: Id)
    ensures RemoveAll(a + b, x) == RemoveAll(a, x) + RemoveAll(b, x)
  {
    if a == [] {
      assert a + b == b;
    } else {
      assert (a + b)[1..] == a[1..] + b;
      RemoveAllAppend(a[1..], b, x);
    }
  }

  /** A list without the id is left as it is; hence filtering twice is filtering once. */
  lemma {:induction false} RemoveAllAbsent(ids: seq<Id>, x: Id)
    requires x !in ids
    ensures RemoveAll(ids, x) == ids
  {
    if ids != [] {
      RemoveAllAbsent(ids[1..], x);
    }
  }

  lemma RemoveAllIdempotent(ids: seq<Id>, x: Id)
    ensures RemoveAll(RemoveAll(ids, x), x) == RemoveAll(ids, x)
  {
    RemoveAllAbsent(RemoveAll(ids, x), x);
  }

  /** `deleteSubService`: 404 for a missing service, then 404 for a missing
      sub-service; otherwise the sub-service is deleted and every occurrence
      of its id is filtered out of the service's list. */
  method DeleteSubService(db: Database, serviceId: Id, subServiceId: Id) returns (reply: Reply)
    modifies db`services, db`subServices
    ensures serviceId !in old(db.services) ==>
              reply == Reply(404, "Service not found")
              && db.services == old(db.services) && db.subServices == old(db.subServices)
    ensures serviceId in old(db.services) && subServiceId !in old(db.subServices) ==>
              reply == Reply(404, "Sub-service not found")
              && db.services == old(db.services) && db.subServices == old(db.subServices)
    ensures serviceId in old(db.services) && subServiceId in old(db.subServices) ==>
              && reply == Reply(200, "Sub-service deleted successfully")
              && db.subServices == old(db.subServices) - {subServiceId}
              && db.services == old(db.services)[serviceId := old(db.services)[serviceId].(
                   subServices := RemoveAll(old(db.services)[serviceId].subServices, subServiceId))]
  {
    if serviceId !in db.services {
      return Reply(404, "Service not found");
    }
    var service := db.services[serviceId];
    if subServiceId !in db.subServices {
      return Reply(404, "Sub-service not found");
    }
    db.subServices := db.subServices - {subServiceId};
    service := service.(subServices := RemoveAll(service.subServices, subServiceId));
    db.services := db.services[serviceId := service];
    reply := Reply(200, "Sub-service deleted successfully");
  }

  /** Every category with the service id pulled from its list. */
  function PullService(categories: map<Id, ServiceCategory>, serviceId: Id): (r: map<Id, ServiceCategory>)
    ensures r.Keys == categories.Keys
    ensures forall k :: k in r ==> serviceId !in r[k].services
    ensures forall k :: k in r ==> r[k] == categories[k].(services := RemoveAll(categories[k].services, serviceId))
  {
    map k | k in categories :: categories[k].(services := RemoveAll(categories[k].services, serviceId))
  }

  /** `deleteService`: 404 for a missing service; otherwise it is deleted
      and pulled from every category's list. Sub-category lists and the
      service's sub-services are left as they are. */
  method DeleteService(db: Database, serviceId: Id) returns (reply: Reply)
    modifies db`services, db`categories
    ensures serviceId !in old(db.services) ==>
              reply == Reply(404, "Service not found")
              && db.services == old(db.services) && db.categories == old(db.categories)
    ensures serviceId in old(db.services) ==>
              && reply == Reply(200, "Service deleted successfully")
              && db.services == old(db.services) - {serviceId}
              && db.categories == PullService(old(db.categories), serviceId)
  {
    if serviceId !in db.services {
      return Reply(404, "Service not found");
    }
    db.services := db.services - {serviceId};
    db.categories := PullService(db.categories, serviceId);
    reply := Reply(200, "Service deleted successfully");
  }

  // ---------------------------------------------------------------------
  // Recommendation and most-booked flags

  datatype ServiceFlag = Recommended | MostBooked

  function FlagName(flag: ServiceFlag): string
  {
    match flag
    case Recommended => "isRecommended"
    case MostBooked => "isMostBooked"
  }

  function FlagLabel(flag: ServiceFlag): string
  {
    match flag
    case Recommended => "recommended"
    case MostBooked => "most booked"
  }

  /** `updateServiceRecommendation` / `updateServiceMostBooked`: a
      non-boolean value (`None`) is refused with 400 before the lookup, a
      missing service gives 404, otherwise the one flag is set. */
  function UpdateServiceFlag(services: map<Id, Service>, serviceId: Id, flag: ServiceFlag,
                             value: Option<bool>): (r: (Reply, map<Id, Service>))
    ensures value.None? ==> r == (Reply(400, FlagName(flag) + " must be a boolean value"), services)
    ensures value.Some? && serviceId !in services ==> r == (Reply(404, "Service not found"), services)
    ensures value.Some? && serviceId in services ==>
              && r.0.status == 200
              && r.0.message == "Service " + (if value.value then "marked as" else "removed from") + " " + FlagLabel(flag)
              && r.1.Keys == services.Keys
              && (forall k :: k in services && k != serviceId ==> r.1[k] == services[k])
              && (flag.Recommended? ==> r.1[serviceId] == services[serviceId].(isRecommended := value))
              && (flag.MostBooked? ==> r.1[serviceId] == services[serviceId].(isMostBooked := value))
  {
    if value.None? then (Reply(400, FlagName(flag) + " must be a boolean value"), services)
    else if serviceId !in services then (Reply(404, "Service not found"), services)
    else
      var s := services[serviceId];
      var t := match flag
               case Recommended => s.(isRecommended := value)
               case MostBooked => s.(isMostBooked := value);
      (Reply(200, "Service " + (if value.value then "marked as" else "removed from") + " " + FlagLabel(flag)),
       services[serviceId := t])
  }
}
