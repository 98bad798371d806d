/** The rows of the tenant tables, as far as the services read or write them. */
module Schema {
  import opened Basics

  datatype Priority = Low | Medium | High | Urgent

  datatype Status = Pending | Done | Failed

  datatype Role = Owner | Admin | Member

  datatype WorkspaceRow = WorkspaceRow(name: string, createdBy: int, createdAt: int, updatedAt: int)

  datatype ProjectRow = ProjectRow(workspaceId: nat, name: string, createdAt: int, updatedAt: int)

  datatype TaskRow = TaskRow(projectId: nat, title: string, instructions: Option<string>, assignedTo: Option<int>,
                             priority: Priority, status: Status, completedAt: Option<int>,
                             createdAt: int, updatedAt: int)

  datatype FileRow = FileRow(taskId: nat, storageKey: string, originalName: string, contentType: string, size: nat,
                             createdBy: int)

  /** The text that the VARCHAR columns hold. */
  function PriorityText(p: Priority): string {
    match p
    case Low => "low"
    case Medium => "medium"
    case High => "high"
    case Urgent => "urgent"
  }

  function StatusText(s: Status): string {
    match s
    case Pending => "pending"
    case Done => "done"
    case Failed => "failed"
  }

  lemma PriorityTextInjective(p: Priority, q: Priority)
    ensures PriorityText(p) == PriorityText(q) <==> p == q
  {
    assert PriorityText(Low)[0] == 'l' && PriorityText(Medium)[0] == 'm';
    assert PriorityText(High)[0] == 'h' && PriorityText(Urgent)[0] == 'u';
  }

  lemma StatusTextInjective(s: Status, t: Status)
    ensures StatusText(s) == StatusText(t) <==> s == t
  {
    assert StatusText(Pending)[0] == 'p' && StatusText(Done)[0] == 'd' && StatusText(Failed)[0] == 'f';
  }
}
