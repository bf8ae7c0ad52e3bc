/**
 * The records and closed enumerations of the email knowledge base
 * (backend/app/models/email.py, mirrored by frontend/src/types/email.ts).
 * Each enumeration carries its wire name and a parser from wire names;
 * timestamps are opaque ISO-8601 strings.
 */
module EmailModels {
  import opened Wrappers

  // ---------------------------------------------------------------------
  // Enumerations
  // ---------------------------------------------------------------------

  datatype SensitivityLevel = Low | Medium | High | Critical {
    function Name(): string {
      match this
      case Low => "low"
      case Medium => "medium"
      case High => "high"
      case Critical => "critical"
    }
  }

  const AllSensitivityLevels: seq<SensitivityLevel> := [Low, Medium, High, Critical]

  function ParseSensitivity(s: string): (r: Option<SensitivityLevel>)
    ensures r.Some? ==> r.value.Name() == s
    ensures forall l: SensitivityLevel :: l.Name() == s ==> r == Some(l)
  {
    if s == "low" then Some(Low)
    else if s == "medium" then Some(Medium)
    else if s == "high" then Some(High)
    else if s == "critical" then Some(Critical)
    else None
  }

  datatype Department = General | Engineering | Product | Marketing | Sales | Finance | HR | Legal | OtherDepartment {
    function Name(): string {
      match this
      case General => "general"
      case Engineering => "engineering"
      case Product => "product"
      case Marketing => "marketing"
      case Sales => "sales"
      case Finance => "finance"
      case HR => "hr"
      case Legal => "legal"
      case OtherDepartment => "other"
    }
  }

  const AllDepartments: seq<Department> :=
    [General, Engineering, Product, Marketing, Sales, Finance, HR, Legal, OtherDepartment]

  function ParseDepartment(s: string): (r: Option<Department>)
    ensures r.Some? ==> r.value.Name() == s
    ensures forall d: Department :: d.Name() == s ==> r == Some(d)
  {
    if s == "general" then Some(General)
    else if s == "engineering" then Some(Engineering)
    else if s == "product" then Some(Product)
    else if s == "marketing" then Some(Marketing)
    else if s == "sales" then Some(Sales)
    else if s == "finance" then Some(Finance)
    else if s == "hr" then Some(HR)
    else if s == "legal" then Some(Legal)
    else if s == "other" then Some(OtherDepartment)
    else None
  }

  datatype PIIType =
    | NoPII | Name | Email | Phone | Address | SSN | Passport
    | CreditCard | BankAccount | DateOfBirth | Salary | OtherPII
  {
    function WireName(): string {
      match this
      case NoPII => "none"
      case Name => "name"
      case Email => "email"
      case Phone => "phone"
      case Address => "address"
      case SSN => "ssn"
      case Passport => "passport"
      case CreditCard => "credit_card"
      case BankAccount => "bank_account"
      case DateOfBirth => "date_of_birth"
      case Salary => "salary"
      case OtherPII => "other"
    }
  }

  const AllPIITypes: seq<PIIType> :=
    [NoPII, Name, Email, Phone, Address, SSN, Passport, CreditCard, BankAccount, DateOfBirth, Salary, OtherPII]

  function ParsePII(s: string): (r: Option<PIIType>)
    ensures r.Some? ==> r.value.WireName() == s
    ensures forall p: PIIType :: p.WireName() == s ==> r == Some(p)
  {
    if s == "none" then Some(NoPII)
    else if s == "name" then Some(Name)
    else if s == "email" then Some(Email)
    else if s == "phone" then Some(Phone)
    else if s == "address" then Some(Address)
    else if s == "ssn" then Some(SSN)
    else if s == "passport" then Some(Passport)
    else if s == "credit_card" then Some(CreditCard)
    else if s == "bank_account" then Some(BankAccount)
    else if s == "date_of_birth" then Some(DateOfBirth)
    else if s == "salary" then Some(Salary)
    else if s == "other" then Some(OtherPII)
    else None
  }

  datatype ReviewStatus = Pending | Approved | Rejected {
    function Name(): string {
      match this
      case Pending => "pending"
      case Approved => "approved"
      case Rejected => "rejected"
    }
  }

  const AllReviewStatuses: seq<ReviewStatus> := [Pending, Approved, Rejected]

  /** There are exactly four sensitivity levels, each listed, under
      distinct names. */
  lemma SensitivityLevelsComplete()
    ensures |AllSensitivityLevels| == 4 && forall l: SensitivityLevel :: l in AllSensitivityLevels
    ensures forall l: SensitivityLevel, m: SensitivityLevel :: l.Name() == m.Name() ==> l == m
  {
    forall l: SensitivityLevel ensures l in AllSensitivityLevels {
      match l
      case Low => assert AllSensitivityLevels[0] == l;
      case Medium => assert AllSensitivityLevels[1] == l;
      case High => assert AllSensitivityLevels[2] == l;
      case Critical => assert AllSensitivityLevels[3] == l;
    }
    forall l: SensitivityLevel, m: SensitivityLevel | l.Name() == m.Name() ensures l == m {
      assert ParseSensitivity(l.Name()) == Some(l) && ParseSensitivity(m.Name()) == Some(m);
    }
  }

  /** There are exactly nine departments, each listed, under distinct
      names. */
  lemma DepartmentsComplete()
    ensures |AllDepartments| == 9 && forall d: Department :: d in AllDepartments
    ensures forall d: Department, e: Department :: d.Name() == e.Name() ==> d == e
  {
    forall d: Department ensures d in AllDepartments {
      match d
      case General => assert AllDepartments[0] == d;
      case Engineering => assert AllDepartments[1] == d;
      case Product => assert AllDepartments[2] == d;
      case Marketing => assert AllDepartments[3] == d;
      case Sales => assert AllDepartments[4] == d;
      case Finance => assert AllDepartments[5] == d;
      case HR => assert AllDepartments[6] == d;
      case Legal => assert AllDepartments[7] == d;
      case OtherDepartment => assert AllDepartments[8] == d;
    }
    forall d: Department, e: Department | d.Name() == e.Name() ensures d == e {
      assert ParseDepartment(d.Name()) == Some(d) && ParseDepartment(e.Name()) == Some(e);
    }
  }

  /** There are exactly twelve PII types, each listed, under distinct wire
      names. */
  lemma PIITypesComplete()
    ensures |AllPIITypes| == 12 && forall p: PIIType :: p in AllPIITypes
    ensures forall p: PIIType, q: PIIType :: p.WireName() == q.WireName() ==> p == q
  {
    forall p: PIIType ensures p in AllPIITypes {
      match p
      case NoPII => assert AllPIITypes[0] == p;
      case Name => assert AllPIITypes[1] == p;
      case Email => assert AllPIITypes[2] == p;
      case Phone => assert AllPIITypes[3] == p;
      case Address => assert AllPIITypes[4] == p;
      case SSN => assert AllPIITypes[5] == p;
      case Passport => assert AllPIITypes[6] == p;
      case CreditCard => assert AllPIITypes[7] == p;
      case BankAccount => assert AllPIITypes[8] == p;
      case DateOfBirth => assert AllPIITypes[9] == p;
      case Salary => assert AllPIITypes[10] == p;
      case OtherPII => assert AllPIITypes[11] == p;
    }
    forall p: PIIType, q: PIIType | p.WireName() == q.WireName() ensures p == q {
      assert ParsePII(p.WireName()) == Some(p) && ParsePII(q.WireName()) == Some(q);
    }
  }

  /** There are exactly three review statuses, each listed, under distinct
      names. */
  lemma ReviewStatusesComplete()
    ensures |AllReviewStatuses| == 3 && forall s: ReviewStatus :: s in AllReviewStatuses
    ensures forall s: ReviewStatus, t: ReviewStatus :: s.Name() == t.Name() ==> s == t
  {
    forall s: ReviewStatus ensures s in AllReviewStatuses {
      match s
      case Pending => assert AllReviewStatuses[0] == s;
      case Approved => assert AllReviewStatuses[1] == s;
      case Rejected => assert AllReviewStatuses[2] == s;
    }
  }

  /** The wire names round-trip through the parsers in both directions. */
  lemma EnumerationRoundTrips(l: SensitivityLevel, d: Department, p: PIIType, s: string)
    ensures ParseSensitivity(l.Name()) == Some(l) && ParseDepartment(d.Name()) == Some(d)
    ensures ParsePII(p.WireName()) == Some(p)
    ensures ParseSensitivity(s).Some? ==> ParseSensitivity(s).value.Name() == s
    ensures ParseDepartment(s).Some? ==> ParseDepartment(s).value.Name() == s
  {
  }

  // ---------------------------------------------------------------------
  // Records
  // ---------------------------------------------------------------------

  datatype EmailPreview = EmailPreview(
    id: string, subject: string, sender: string, receivedDate: string, snippet: string)

  /** The backend's query object: every field is optional. */
  datatype EmailFilter = EmailFilter(
    folderId: Option<string>, startDate: Option<string>, endDate: Option<string>,
    keywords: Option<seq<string>>, sender: Option<string>)

  datatype EmailAttachment = EmailAttachment(
    id: string, name: string, contentType: string, size: int, content: Option<string>)

  datatype EmailContent = EmailContent(
    id: string, internetMessageId: string, subject: string, sender: string, senderEmail: string,
    recipients: seq<string>, ccRecipients: Option<seq<string>>, receivedDate: string, body: string,
    isHtml: bool, folderId: string, folderName: string,
    attachments: Option<seq<EmailAttachment>>, importance: string)

  datatype EmailAnalysis = EmailAnalysis(
    sensitivity: SensitivityLevel, department: Department, tags: seq<string>, isPrivate: bool,
    piiDetected: seq<PIIType>, recommendedAction: string, summary: string, keyPoints: seq<string>)

  datatype EmailReview = EmailReview(
    emailId: string, content: EmailContent, analysis: EmailAnalysis, status: ReviewStatus,
    reviewedAt: Option<string>, reviewerId: Option<string>, reviewNotes: Option<string>)

  datatype EmailApproval = EmailApproval(approved: bool, notes: Option<string>)

  /** The filter with every field left at its default. */
  function EmptyFilter(): (f: EmailFilter)
    ensures f.folderId.None? && f.startDate.None? && f.endDate.None? && f.keywords.None? && f.sender.None?
  {
    EmailFilter(None, None, None, None, None)
  }

  /** An EmailAnalysis built without `pii_detected` gets the empty list. */
  function AnalysisWithoutPII(
    sensitivity: SensitivityLevel, department: Department, tags: seq<string>, isPrivate: bool,
    recommendedAction: string, summary: string, keyPoints: seq<string>): (a: EmailAnalysis)
    ensures a.piiDetected == []
    ensures a.sensitivity == sensitivity && a.department == department && a.tags == tags
    ensures a.isPrivate == isPrivate && a.recommendedAction == recommendedAction
    ensures a.summary == summary && a.keyPoints == keyPoints
  {
    EmailAnalysis(sensitivity, department, tags, isPrivate, [], recommendedAction, summary, keyPoints)
  }

  /** A review created from an email and its analysis starts out pending,
      with no reviewer, no review time and no notes. */
  function NewReview(emailId: string, content: EmailContent, analysis: EmailAnalysis): (r: EmailReview)
    ensures r.status == Pending
    ensures r.reviewedAt.None? && r.reviewerId.None? && r.reviewNotes.None?
    ensures r.emailId == emailId && r.content == content && r.analysis == analysis
  {
    EmailReview(emailId, content, analysis, Pending, None, None, None)
  }

  /** The status a decision gives: approved for `true`, rejected otherwise. */
  function DecisionStatus(approved: bool): (s: ReviewStatus)
    ensures s != Pending
    ensures s == Approved <==> approved
  {
    if approved then Approved else Rejected
  }
}
