/** The mail service the controllers notify after a deletion. Delivery
    (CloudMailService writes the mail to the debug output) is not modelled:
    the service keeps the list of mails it was asked to send. */
module Mail {
  import opened Primitives
  import opened Entities

  datatype Mail = Mail(subject: string, message: string)

  class MailService {
    var sent: seq<Mail>

    constructor ()
      ensures sent == []
    {
      sent := [];
    }

    method Send(subject: string, message: string)
      modifies this
      ensures sent == old(sent) + [Mail(subject, message)]
    {
      sent := sent + [Mail(subject, message)];
    }
  }

  /** `$"..."` interpolation renders a null string as nothing. */
  function Interpolated(t: Text): string {
    if t.Some? then t.value else ""
  }

  const DeletionSubject: string := "Point of interest deleted."
  const NoticeOpening: string := "Point of interest "
  const NoticeKeyLabel: string := " with id "
  const NoticeClosing: string := " was deleted."

  /** The notice both delete actions send: "Point of interest {name} with
      id {id} was deleted.", from which the key can be read back. */
  function DeletionNotice(name: Text, id: Int32): (m: Mail)
    ensures m.subject == DeletionSubject
    ensures m.message == NoticeOpening + Interpolated(name) + NoticeKeyLabel + IntString(id) + NoticeClosing
    ensures var keyAt := |NoticeOpening| + |Interpolated(name)| + |NoticeKeyLabel|;
            var keyEnd := |m.message| - |NoticeClosing|;
            keyAt < keyEnd && IsDecimal(m.message[keyAt..keyEnd]) && DecimalValue(m.message[keyAt..keyEnd]) == id
  {
    var head := NoticeOpening + Interpolated(name) + NoticeKeyLabel;
    var key := IntString(id);
    var message := head + key + NoticeClosing;
    assert message[|head|..|message| - |NoticeClosing|] == key;
    Mail(DeletionSubject, message)
  }
}
