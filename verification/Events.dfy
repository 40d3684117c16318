/** The values that flow through the pipeline: JSON documents, source positions and change events. */
module Events {
  import opened Wrappers

  /** `JOther` stands for numbers with a fraction, kept as their text. */
  datatype Json =
    | JNull
    | JBool(b: bool)
    | JInt(n: int)
    | JOther(text: string)
    | JString(s: string)
    | JArray(items: seq<Json>)
    | JObject(fields: map<string, Json>)

  datatype Position =
    | PostgreSQL(lsn: string)
    | MySQL(file: string, offset: nat)
    | MongoDB(resumeToken: string)

  datatype EventType = Create | Update | Delete | Truncate | Schema

  datatype CdcEvent = CdcEvent(
    eventType: EventType, table: string, schema: string, data: map<string, Json>, position: Option<Position>)

  datatype Event =
    | Cdc(cdc: CdcEvent)
    | FullSync(table: string, document: Json)
    | Inserted(table: string, newData: Json, position: Option<Position>)
    | Updated(table: string, oldData: Json, newData: Json, position: Option<Position>)
    | Deleted(table: string, oldData: Json, position: Option<Position>)
    | Checkpointed(at: Position)
    | Heartbeat
}
