/** Names and values shared by the components of the pipe. */
module DdsPipeTypes {

  /** Number of values of a 32-bit `unsigned int`. */
  const WORD: nat := 0x1_0000_0000

  type ParticipantId = string

  /** The id a topic or endpoint has when nobody discovered it. */
  const DEFAULT_PARTICIPANT_ID: ParticipantId := "Undefined"

  type Guid = nat

  /** Topics are told apart by name and type; their QoS and discoverer do not matter. */
  datatype DdsTopic = DdsTopic(name: string, typeName: string)

  datatype EndpointKind = Reader | Writer

  /** The discoverer of an endpoint is also that of the topic it carries. */
  datatype Endpoint = Endpoint(
    guid: Guid, kind: EndpointKind, topic: DdsTopic, discoverer: ParticipantId, active: bool)
}
