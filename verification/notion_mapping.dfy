/**
 A whole record at a time: the mapping engine's ToExternal and FromExternal, the extraction of a
 record's fields and the way pulled fields are applied back onto it.
 */
module NotionMapping {
  import opened Wrappers
  import opened NotionValues

  // ---------------------------------------------------------------- mapping entries

  /** Internal field names; Custom is any name no entity recognizes. */
  datatype Field =
    | Name | RecordStatus | Tags | Domain | Website | Description | EmployeeCount | AnnualRevenue
    | Headquarters | LinkedinUrl | Phone | Score
    | FirstName | LastName | EmailAddress | JobTitle | Department | Notes | LastContactedAt
    | Stage | StageEnteredAt | DealValue | Probability | Tier | ExpectedClose | ActualClose
    | LostReason | CompanyName
    | Custom(name: string)

  datatype Direction = Unset | Both | OnlyOut | OnlyIn | Unknown(text: string)

  datatype MapEntry = MapEntry(internal: Field, external: string, kind: PropType, direction: Direction)

  /** "both", an unset direction, or the direction asked for. */
  predicate Applies(e: MapEntry, direction: Direction) {
    e.direction.Unset? || e.direction.Both? || e.direction == direction
  }

  function EntriesFor(entries: seq<MapEntry>, direction: Direction): seq<MapEntry> {
    if entries == [] then []
    else
      EntriesFor(entries[..|entries| - 1], direction)
      + if Applies(entries[|entries| - 1], direction) then [entries[|entries| - 1]] else []
  }

  method EntriesForDirection(entries: seq<MapEntry>, direction: Direction) returns (out: seq<MapEntry>)
    ensures out == EntriesFor(entries, direction)
    ensures forall e :: e in out <==> e in entries && Applies(e, direction)
  {
    out := [];
    for i := 0 to |entries|
      invariant out == EntriesFor(entries[..i], direction)
      invariant forall e :: e in out <==> e in entries[..i] && Applies(e, direction)
    {
      assert entries[..i + 1] == entries[..i] + [entries[i]];
      if Applies(entries[i], direction) {
        out := out + [entries[i]];
      }
    }
    assert entries[..|entries|] == entries;
  }

  // ---------------------------------------------------------------- outbound

  /** Writes the entries' fields one after the other; None when a field's type is unsupported. */
  function Outbound(rt: Runtime, entries: seq<MapEntry>, fields: map<Field, Value>): Option<map<string, Json>> {
    if entries == [] then Some(map[])
    else
      var e := entries[|entries| - 1];
      match Outbound(rt, entries[..|entries| - 1], fields)
      case None => None
      case Some(out) =>
        if e.internal !in fields then Some(out)
        else
          match Serialize(rt, e.kind, fields[e.internal])
          case None => None
          case Some(prop) => Some(out[e.external := prop])
  }

  lemma {:induction false} OutboundFails(rt: Runtime, entries: seq<MapEntry>, fields: map<Field, Value>, n: nat)
    requires n <= |entries| && Outbound(rt, entries[..n], fields).None?
    ensures Outbound(rt, entries, fields).None?
    decreases |entries| - n
  {
    if n < |entries| {
      assert entries[..n + 1][..n] == entries[..n];
      OutboundFails(rt, entries, fields, n + 1);
    } else {
      assert entries[..n] == entries;
    }
  }

  /** NotionAdapter.ToExternal */
  method ToExternal(
      rt: Runtime, entries: seq<MapEntry>, fields: map<Field, Value>) returns (r: Option<map<string, Json>>)
    ensures r == Outbound(rt, EntriesFor(entries, OnlyOut), fields)
  {
    var relevant := EntriesForDirection(entries, OnlyOut);
    var out: map<string, Json> := map[];
    for i := 0 to |relevant|
      invariant Outbound(rt, relevant[..i], fields) == Some(out)
    {
      assert relevant[..i + 1][..i] == relevant[..i];
      var e := relevant[i];
      if e.internal !in fields {
        continue;
      }
      var prop := Serialize(rt, e.kind, fields[e.internal]);
      if prop.None? {
        OutboundFails(rt, relevant, fields, i + 1);
        return None;
      }
      out := out[e.external := prop.value];
    }
    assert relevant[..|relevant|] == relevant;
    return Some(out);
  }

  // ---------------------------------------------------------------- inbound

  function Inbound(entries: seq<MapEntry>, raw: map<string, Json>): map<Field, Value> {
    if entries == [] then map[]
    else
      var e := entries[|entries| - 1];
      var out := Inbound(entries[..|entries| - 1], raw);
      if e.external !in raw || !raw[e.external].JObj? then out
      else
        match Deserialize(e.kind, raw[e.external].fields)
        case None => out
        case Some(v) => out[e.internal := v]
  }

  /** NotionAdapter.FromExternal */
  method FromExternal(entries: seq<MapEntry>, raw: map<string, Json>) returns (out: map<Field, Value>)
    ensures out == Inbound(EntriesFor(entries, OnlyIn), raw)
  {
    var relevant := EntriesForDirection(entries, OnlyIn);
    out := map[];
    for i := 0 to |relevant|
      invariant out == Inbound(relevant[..i], raw)
    {
      assert relevant[..i + 1][..i] == relevant[..i];
      var e := relevant[i];
      if e.external !in raw || !raw[e.external].JObj? {
        continue;
      }
      var value := Deserialize(e.kind, raw[e.external].fields);
      if value.Some? {
        out := out[e.internal := value.value];
      }
    }
    assert relevant[..|relevant|] == relevant;
  }

  // ---------------------------------------------------------------- entities

  datatype Kind = Company | Contact | Sponsor

  /** How a pulled value is taken into a field: Required text is never emptied, Optional text is
      always taken, Amount is a number, Percent a number truncated to an integer. */
  datatype Slot = Required | Optional | Amount | Percent

  datatype Intake = Intake(field: Field, slot: Slot)

  /** A list built from its front. */
  datatype Chain<T> = Start | Then(prev: Chain<T>, last: T)

  // The fields of each entity, in the order its record is built.

  function CompanyFields(): Chain<Field> {
    var c := Start;
    var c := Then(c, Name);
    var c := Then(c, RecordStatus);
    var c := Then(c, Tags);
    var c := Then(c, Domain);
    var c := Then(c, Website);
    var c := Then(c, Description);
    var c := Then(c, EmployeeCount);
    var c := Then(c, AnnualRevenue);
    var c := Then(c, Headquarters);
    var c := Then(c, LinkedinUrl);
    var c := Then(c, Phone);
    var c := Then(c, Score);
    c
  }

  function ContactFields(): Chain<Field> {
    var c := Start;
    var c := Then(c, FirstName);
    var c := Then(c, LastName);
    var c := Then(c, RecordStatus);
    var c := Then(c, Tags);
    var c := Then(c, EmailAddress);
    var c := Then(c, Phone);
    var c := Then(c, JobTitle);
    var c := Then(c, Department);
    var c := Then(c, LinkedinUrl);
    var c := Then(c, Notes);
    var c := Then(c, LastContactedAt);
    c
  }

  function SponsorFields(): Chain<Field> {
    var c := Start;
    var c := Then(c, Stage);
    var c := Then(c, StageEnteredAt);
    var c := Then(c, DealValue);
    var c := Then(c, Probability);
    var c := Then(c, Tier);
    var c := Then(c, ExpectedClose);
    var c := Then(c, ActualClose);
    var c := Then(c, LostReason);
    var c := Then(c, Notes);
    var c := Then(c, CompanyName);
    c
  }

  function FieldsOf(kind: Kind): Chain<Field> {
    match kind
    case Company => CompanyFields()
    case Contact => ContactFields()
    case Sponsor => SponsorFields()
  }

  // The fields a pull may change, in the order they are applied.

  function CompanyIntakes(): Chain<Intake> {
    var c := Start;
    var c := Then(c, Intake(Name, Required));
    var c := Then(c, Intake(RecordStatus, Required));
    var c := Then(c, Intake(Domain, Optional));
    var c := Then(c, Intake(Website, Optional));
    var c := Then(c, Intake(Description, Optional));
    var c := Then(c, Intake(EmployeeCount, Optional));
    var c := Then(c, Intake(AnnualRevenue, Optional));
    var c := Then(c, Intake(Headquarters, Optional));
    var c := Then(c, Intake(LinkedinUrl, Optional));
    var c := Then(c, Intake(Phone, Optional));
    c
  }

  function ContactIntakes(): Chain<Intake> {
    var c := Start;
    var c := Then(c, Intake(FirstName, Required));
    var c := Then(c, Intake(LastName, Required));
    var c := Then(c, Intake(RecordStatus, Required));
    var c := Then(c, Intake(EmailAddress, Optional));
    var c := Then(c, Intake(Phone, Optional));
    var c := Then(c, Intake(JobTitle, Optional));
    var c := Then(c, Intake(Department, Optional));
    var c := Then(c, Intake(LinkedinUrl, Optional));
    var c := Then(c, Intake(Notes, Optional));
    c
  }

  function SponsorIntakes(): Chain<Intake> {
    var c := Start;
    var c := Then(c, Intake(Stage, Required));
    var c := Then(c, Intake(Tier, Optional));
    var c := Then(c, Intake(LostReason, Optional));
    var c := Then(c, Intake(Notes, Optional));
    var c := Then(c, Intake(ExpectedClose, Optional));
    var c := Then(c, Intake(ActualClose, Optional));
    var c := Then(c, Intake(DealValue, Amount));
    var c := Then(c, Intake(Probability, Percent));
    c
  }

  function IntakesOf(kind: Kind): Chain<Intake> {
    match kind
    case Company => CompanyIntakes()
    case Contact => ContactIntakes()
    case Sponsor => SponsorIntakes()
  }

  function At(m: map<Field, Value>, f: Field): Option<Value> {
    if f in m then Some(m[f]) else None
  }

  function Put(m: map<Field, Value>, f: Field, v: Option<Value>): map<Field, Value> {
    if v.Some? then m[f := v.value] else m
  }

  /** Go's conversion of a float64 to an int column drops the fraction. */
  function Rounded(n: Float): Value {
    Num(Float(n.whole, 0.0))
  }

  /** What an incoming value becomes in a slot; None leaves the field as it was. */
  function Accepted(slot: Slot, incoming: Option<Value>): Option<Value> {
    match slot
    case Required => if incoming.Some? && incoming.value.Text? && incoming.value.s != "" then incoming else None
    case Optional => if incoming.Some? && incoming.value.Text? then incoming else None
    case Amount => if incoming.Some? && incoming.value.Num? then incoming else None
    case Percent => if incoming.Some? && incoming.value.Num? then Some(Rounded(incoming.value.n)) else None
  }

  /** A sponsor whose company was not loaded has no company name to offer. */
  function Offered(vals: map<Field, Value>, f: Field): Option<Value> {
    if f.CompanyName? && At(vals, f) == Some(Text("")) then None else At(vals, f)
  }

  function GatherAll(vals: map<Field, Value>, fs: Chain<Field>): map<Field, Value> {
    match fs
    case Start => map[]
    case Then(prev, f) => Put(GatherAll(vals, prev), f, Offered(vals, f))
  }

  function TakeAll(was: map<Field, Value>, fields: map<Field, Value>, pulls: Chain<Intake>): map<Field, Value> {
    match pulls
    case Start => was
    case Then(prev, p) => Put(TakeAll(was, fields, prev), p.field, Accepted(p.slot, At(fields, p.field)))
  }

  /** The fields a record offers for syncing. */
  function Extracted(kind: Kind, vals: map<Field, Value>): map<Field, Value> {
    GatherAll(vals, FieldsOf(kind))
  }

  /** The entity after the pulled fields are applied. */
  function Applied(kind: Kind, vals: map<Field, Value>, fields: map<Field, Value>): map<Field, Value> {
    TakeAll(vals, fields, IntakesOf(kind))
  }

  /** A company, contact or sponsor: its columns, a nil pointer being an absent field. */
  class Entity {
    const kind: Kind
    var vals: map<Field, Value>
    var out: map<Field, Value>
    ghost var done: Chain<Field>
    ghost var taken: Chain<Intake>

    constructor (kind: Kind, vals: map<Field, Value>)
      ensures this.kind == kind && this.vals == vals
    {
      this.kind := kind;
      this.vals := vals;
      out, done, taken := map[], Start, Start;
    }

    /** A field that is always in the record. */
    method Always(f: Field)
      requires f in vals && !f.CompanyName? && out == GatherAll(vals, done)
      modifies this`out, this`done
      ensures done == Then(old(done), f) && out == GatherAll(vals, done)
    {
      out := out[f := vals[f]];
      done := Then(done, f);
    }

    /** A nullable column goes into the record when it holds something. */
    method IfPresent(f: Field)
      requires !f.CompanyName? && out == GatherAll(vals, done)
      modifies this`out, this`done
      ensures done == Then(old(done), f) && out == GatherAll(vals, done)
    {
      if f in vals {
        out := out[f := vals[f]];
      }
      done := Then(done, f);
    }

    /** A sponsor's company is loaded with it or not; its name goes along only when there is one. */
    method CompanyNameIfLoaded()
      requires out == GatherAll(vals, done)
      modifies this`out, this`done
      ensures done == Then(old(done), CompanyName) && out == GatherAll(vals, done)
    {
      if CompanyName in vals && vals[CompanyName] != Text("") {
        out := out[CompanyName := vals[CompanyName]];
      }
      done := Then(done, CompanyName);
    }

    method CompanyToRecord() returns (fields: map<Field, Value>)
      requires kind.Company? && {Name, RecordStatus, Tags} <= vals.Keys
      modifies this`out, this`done
      ensures fields == Extracted(kind, vals)
    {
      out, done := map[], Start;
      Always(Name);
      Always(RecordStatus);
      Always(Tags);
      IfPresent(Domain);
      IfPresent(Website);
      IfPresent(Description);
      IfPresent(EmployeeCount);
      IfPresent(AnnualRevenue);
      IfPresent(Headquarters);
      IfPresent(LinkedinUrl);
      IfPresent(Phone);
      IfPresent(Score);
      assert done == FieldsOf(kind);
      return out;
    }

    method ContactToRecord() returns (fields: map<Field, Value>)
      requires kind.Contact? && {FirstName, LastName, RecordStatus, Tags} <= vals.Keys
      modifies this`out, this`done
      ensures fields == Extracted(kind, vals)
    {
      out, done := map[], Start;
      Always(FirstName);
      Always(LastName);
      Always(RecordStatus);
      Always(Tags);
      IfPresent(EmailAddress);
      IfPresent(Phone);
      IfPresent(JobTitle);
      IfPresent(Department);
      IfPresent(LinkedinUrl);
      IfPresent(Notes);
      IfPresent(LastContactedAt);
      assert done == FieldsOf(kind);
      return out;
    }

    method SponsorToRecord() returns (fields: map<Field, Value>)
      requires kind.Sponsor? && {Stage, StageEnteredAt} <= vals.Keys
      modifies this`out, this`done
      ensures fields == Extracted(kind, vals)
    {
      out, done := map[], Start;
      Always(Stage);
      Always(StageEnteredAt);
      IfPresent(DealValue);
      IfPresent(Probability);
      IfPresent(Tier);
      IfPresent(ExpectedClose);
      IfPresent(ActualClose);
      IfPresent(LostReason);
      IfPresent(Notes);
      CompanyNameIfLoaded();
      assert done == FieldsOf(kind);
      return out;
    }

    /** Text that must not be blank: taken only from text that is not. */
    method TakeRequired(f: Field, fields: map<Field, Value>, ghost was: map<Field, Value>)
      requires vals == TakeAll(was, fields, taken)
      modifies this`vals, this`taken
      ensures taken == Then(old(taken), Intake(f, Required)) && vals == TakeAll(was, fields, taken)
    {
      if f in fields && fields[f].Text? && fields[f].s != "" {
        vals := vals[f := fields[f]];
      }
      taken := Then(taken, Intake(f, Required));
    }

    /** Nullable text: taken from any text, the empty one included. */
    method TakeOptional(f: Field, fields: map<Field, Value>, ghost was: map<Field, Value>)
      requires vals == TakeAll(was, fields, taken)
      modifies this`vals, this`taken
      ensures taken == Then(old(taken), Intake(f, Optional)) && vals == TakeAll(was, fields, taken)
    {
      if f in fields && fields[f].Text? {
        vals := vals[f := fields[f]];
      }
      taken := Then(taken, Intake(f, Optional));
    }

    /** A nullable number, taken from numbers alone. */
    method TakeAmount(f: Field, fields: map<Field, Value>, ghost was: map<Field, Value>)
      requires vals == TakeAll(was, fields, taken)
      modifies this`vals, this`taken
      ensures taken == Then(old(taken), Intake(f, Amount)) && vals == TakeAll(was, fields, taken)
    {
      if f in fields && fields[f].Num? {
        vals := vals[f := fields[f]];
      }
      taken := Then(taken, Intake(f, Amount));
    }

    /** A whole percentage, taken from numbers alone and without their fraction. */
    method TakePercent(f: Field, fields: map<Field, Value>, ghost was: map<Field, Value>)
      requires vals == TakeAll(was, fields, taken)
      modifies this`vals, this`taken
      ensures taken == Then(old(taken), Intake(f, Percent)) && vals == TakeAll(was, fields, taken)
    {
      if f in fields && fields[f].Num? {
        vals := vals[f := Rounded(fields[f].n)];
      }
      taken := Then(taken, Intake(f, Percent));
    }

    method ApplyToCompany(fields: map<Field, Value>)
      requires kind.Company?
      modifies this`vals, this`taken
      ensures vals == Applied(kind, old(vals), fields)
    {
      ghost var was := vals;
      taken := Start;
      TakeRequired(Name, fields, was);
      TakeRequired(RecordStatus, fields, was);
      TakeOptional(Domain, fields, was);
      TakeOptional(Website, fields, was);
      TakeOptional(Description, fields, was);
      TakeOptional(EmployeeCount, fields, was);
      TakeOptional(AnnualRevenue, fields, was);
      TakeOptional(Headquarters, fields, was);
      TakeOptional(LinkedinUrl, fields, was);
      TakeOptional(Phone, fields, was);
      assert taken == IntakesOf(kind);
    }

    method ApplyToContact(fields: map<Field, Value>)
      requires kind.Contact?
      modifies this`vals, this`taken
      ensures vals == Applied(kind, old(vals), fields)
    {
      ghost var was := vals;
      taken := Start;
      TakeRequired(FirstName, fields, was);
      TakeRequired(LastName, fields, was);
      TakeRequired(RecordStatus, fields, was);
      TakeOptional(EmailAddress, fields, was);
      TakeOptional(Phone, fields, was);
      TakeOptional(JobTitle, fields, was);
      TakeOptional(Department, fields, was);
      TakeOptional(LinkedinUrl, fields, was);
      TakeOptional(Notes, fields, was);
      assert taken == IntakesOf(kind);
    }

    method ApplyToSponsor(fields: map<Field, Value>)
      requires kind.Sponsor?
      modifies this`vals, this`taken
      ensures vals == Applied(kind, old(vals), fields)
    {
      ghost var was := vals;
      taken := Start;
      TakeRequired(Stage, fields, was);
      TakeOptional(Tier, fields, was);
      TakeOptional(LostReason, fields, was);
      TakeOptional(Notes, fields, was);
      TakeOptional(ExpectedClose, fields, was);
      TakeOptional(ActualClose, fields, was);
      TakeAmount(DealValue, fields, was);
      TakePercent(Probability, fields, was);
      assert taken == IntakesOf(kind);
    }
  }
}
