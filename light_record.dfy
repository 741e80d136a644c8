/** `OsfLightRecordDTO`: the light record yielded by the OSF iterators, with mutable fields. */
module LightRecord {
  import opened RecordTypes
  import opened LoaderUtils

  /** The state of one DTO, as a value. */
  datatype LightRecordValue = LightRecordValue(id: string, filterDate: Instant, recordType: RecordType, retrievedDate: Instant)

  class OsfLightRecordDTO {
    var id: string
    var filterDate: Instant
    var recordType: RecordType
    var retrievedDate: Instant

    constructor (id: string, filterDate: Instant, recordType: RecordType, retrievedDate: Instant)
      ensures Value() == LightRecordValue(id, filterDate, recordType, retrievedDate)
    {
      this.id := id;
      this.filterDate := filterDate;
      this.recordType := recordType;
      this.retrievedDate := retrievedDate;
    }

    function Value(): LightRecordValue
      reads this
    {
      LightRecordValue(id, filterDate, recordType, retrievedDate)
    }

    function GetId(): string reads this { id }
    function GetFilterDate(): Instant reads this { filterDate }
    function GetType(): RecordType reads this { recordType }
    function GetRetrievedDate(): Instant reads this { retrievedDate }

    method SetId(x: string)
      modifies this
      ensures Value() == old(Value()).(id := x)
    {
      id := x;
    }

    method SetFilterDate(x: Instant)
      modifies this
      ensures Value() == old(Value()).(filterDate := x)
    {
      filterDate := x;
    }

    method SetType(x: RecordType)
      modifies this
      ensures Value() == old(Value()).(recordType := x)
    {
      recordType := x;
    }

    method SetRetrievedDate(x: Instant)
      modifies this
      ensures Value() == old(Value()).(retrievedDate := x)
    {
      retrievedDate := x;
    }
  }
}
