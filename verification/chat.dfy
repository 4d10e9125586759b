/** `src/types/index.ts`: the chat message and vision/mission records shared by the wizard. */
module Chat {

  /** `role: 'user' | 'ai'` */
  datatype Role = User | Ai

  /** The role as the string stored in the record. */
  function RoleName(r: Role): string {
    match r
    case User => "user"
    case Ai => "ai"
  }

  datatype ChatMessage = ChatMessage(role: Role, content: string)

  datatype VisionMission = VisionMission(vision: string, mission: string)
}
