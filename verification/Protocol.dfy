/** Messages of the app-server protocol, after JSON decoding.

    A value read with `dict.get` keeps only what the driver can observe: absent
    or null (`Missing`), a string, or something else.  Python refuses to hash
    lists and objects, so `Other` remembers whether a value is hashable: looking
    an unhashable value up in a dict or a set raises. */
module Protocol {
  import opened Common

  const MAX_PENDING_NOTIFICATIONS := 4096
  const MAX_JSONL_FRAME_BYTES := 4 * 1024 * 1024
  const MAX_TURN_INPUT_BYTES := 16 * 1024 * 1024
  const MAX_CONVERSATION_INPUT_BYTES := 64 * 1024 * 1024

  datatype Field = Missing | Text(text: string) | Other(hashable: bool)

  /** `agentMessage` is one of the informational types; it is kept apart because
      its completion is recorded. */
  datatype ItemType =
    | CommandExecution
    | AgentMessage
    | Informational(name: string)
    | Disallowed(name: string)
    | Unrecognized(name: string)

  datatype TypeField = Typed(itemType: ItemType) | Untyped

  datatype ItemStatus = NoStatus | InProgress | Completed | Declined | Failed | OtherStatus(hashable: bool)

  datatype TurnStatus = TurnInProgress | TurnCompleted | TurnFailed | TurnInterrupted | OtherTurnStatus(hashable: bool)

  datatype Item = Item(
    id: Field,
    kind: TypeField,
    status: ItemStatus,
    command: Field,
    aggregatedOutput: Field,
    exitCode: Field,
    text: Field)

  datatype TurnInfo = TurnInfo(id: Field, status: TurnStatus, error: Field)

  /** `thread/settings/updated` content: either some validation of the boundary,
      the model or the effort raises, or it names a model and maybe an effort. */
  datatype Settings = InvalidSettings | ValidSettings(model: string, effort: Option<string>)

  datatype ModelField = InvalidModel | ValidModel(name: string)

  datatype Params = Params(
    threadId: Field,
    turnId: Field,
    itemId: Field,
    delta: Field,
    item: Item,
    turn: TurnInfo,
    remoteControlDisabled: bool,
    startedThread: Field,
    settings: Settings,
    fromModel: ModelField,
    toModel: ModelField)

  /** Notification methods, grouped the way the driver's tables group them. */
  datatype Method =
    | TurnStartedMethod
    | ItemStartedMethod
    | ItemCompletedMethod
    | SettingsUpdatedMethod
    | ModelReroutedMethod
    | TurnCompletedMethod
    | ErrorMethod
    | RemoteControlMethod
    | ThreadStartedMethod
    | OutputDeltaMethod
    | ItemScopedMethod(name: string)
    | TurnScopedMethod(name: string)
    | ThreadScopedMethod(name: string)
    | GlobalMethod(name: string)
    | ServerRequestResolvedMethod
    | UnknownMethod(hashable: bool)

  datatype RequestKind = ItemRequest(name: string) | OtherRequest(name: string)

  /** What the session hands to the collector: evidence objects for malformed
      frames, denied server requests and resolutions, else the message itself. */
  datatype Message =
    | Malformed
    | Denied(kind: RequestKind, threadId: Field, turnId: Field, itemReference: Field, orderingValid: bool)
    | Resolution(threadId: Field, orderingValid: bool)
    | RawServerRequest
    | WithoutMethod
    | Notification(topic: Method, params: Params)
}
