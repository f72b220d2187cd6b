/**
 * The mail service: each export builds the options of one mail (sender, recipient,
 * optional reply-to address, subject, and the values interpolated into the HTML body)
 * and hands them to the transport. The HTML and CSS around the values and the transport
 * itself are left out, and so is the copyright year of the footer; `body` lists the
 * interpolated values in the order the template shows them.
 */
module EmailService {
  import opened Wrappers
  import opened Text

  /** `process.env.EMAIL_FROM` and `process.env.ADMIN_EMAIL`. */
  datatype Config = Config(emailFrom: string, adminEmail: string)

  datatype Mail = Mail(from: string, to: string, replyTo: Option<string>, subject: string, body: seq<string>)

  const Green: string := "#10b981"
  const Red: string := "#ef4444"
  const GradeSubjectPrefix: string := "Nouvelle note disponible - "
  const StudentSubjectPrefix: string := "[Étudiant] "
  const WelcomeSubject: string := "Bienvenue - Vos identifiants de connexion"
  const ResetSubject: string := "Réinitialisation de votre mot de passe"

  /** The colour of the grade in the notification: green for a pass, red otherwise. */
  function GradeColour(grade: real): (c: string)
    ensures c == Green <==> grade >= 10.0
    ensures c == Red <==> grade < 10.0
  {
    if grade >= 10.0 then Green else Red
  }

  /**
   * `sendGradeNotificationEmail`: to the student, subject naming the course; the body shows
   * the grade out of 20 in its colour and the date of the grade. JavaScript's rendering of a
   * number (`${grade}`) and `toLocaleDateString('fr-FR')` are the parameters `showGrade` and
   * `showDate`.
   */
  function GradeNotificationMail(cfg: Config, studentEmail: string, studentName: string,
                                 courseName: string, grade: real, date: int,
                                 showGrade: real -> string, showDate: int -> string): (m: Mail)
    ensures m.from == cfg.emailFrom && m.to == studentEmail && m.replyTo.None?
    ensures m.subject == GradeSubjectPrefix + courseName
    ensures |m.body| == 5 && m.body[0] == GradeColour(grade) && m.body[1] == studentName && m.body[2] == courseName
    ensures m.body[3] == showGrade(grade) + "/20" && m.body[4] == showDate(date)
    ensures (m.body[0] == Green) <==> grade >= 10.0
  {
    Mail(cfg.emailFrom, studentEmail, None, GradeSubjectPrefix + courseName,
         [GradeColour(grade), studentName, courseName, showGrade(grade) + "/20", showDate(date)])
  }

  /** `sendAdminToStudentEmail`: to the student, the subject verbatim, line breaks as `<br>`. */
  function AdminToStudentMail(cfg: Config, studentEmail: string, studentName: string,
                              subject: string, message: string): (m: Mail)
    ensures m.from == cfg.emailFrom && m.to == studentEmail && m.replyTo.None? && m.subject == subject
    ensures |m.body| == 2 && m.body[0] == studentName && '\n' !in m.body[1]
    ensures m.body[1] == Join(Split(message, '\n'), "<br>")
  {
    NewlinesToBrJoinSplit(message);
    Mail(cfg.emailFrom, studentEmail, None, subject, [studentName, NewlinesToBr(message)])
  }

  /**
   * `sendStudentToAdminEmail`: to the configured admin address (the caller's own choice of
   * admin address is not used), replies going to the student, subject tagged `[Étudiant] `.
   */
  function StudentToAdminMail(cfg: Config, studentEmail: string, studentName: string,
                              subject: string, message: string): (m: Mail)
    ensures m.from == cfg.emailFrom && m.to == cfg.adminEmail && m.replyTo == Some(studentEmail)
    ensures m.subject == StudentSubjectPrefix + subject
    ensures |m.body| == 5 && m.body[2] == subject && '\n' !in m.body[3]
    ensures m.body[3] == Join(Split(message, '\n'), "<br>")
    ensures m.body[1] == m.body[4] == studentEmail
  {
    NewlinesToBrJoinSplit(message);
    Mail(cfg.emailFrom, cfg.adminEmail, Some(studentEmail), StudentSubjectPrefix + subject,
         [studentName, studentEmail, subject, NewlinesToBr(message), studentEmail])
  }

  /** `sendWelcomeWithCredentials`: to the student, carrying email, number and temporary password. */
  function WelcomeMail(cfg: Config, studentEmail: string, studentName: string,
                       studentNumber: string, tempPassword: string): (m: Mail)
    ensures m.from == cfg.emailFrom && m.to == studentEmail && m.replyTo.None? && m.subject == WelcomeSubject
    ensures studentEmail in m.body && studentNumber in m.body && tempPassword in m.body
    ensures m.body == [studentName, studentEmail, studentNumber, tempPassword]
  {
    Mail(cfg.emailFrom, studentEmail, None, WelcomeSubject, [studentName, studentEmail, studentNumber, tempPassword])
  }

  /** `sendPasswordResetEmail`: to the student, carrying the new temporary password (not the number). */
  function PasswordResetMail(cfg: Config, studentEmail: string, studentName: string,
                             studentNumber: string, tempPassword: string): (m: Mail)
    ensures m.from == cfg.emailFrom && m.to == studentEmail && m.replyTo.None? && m.subject == ResetSubject
    ensures m.body == [studentName, tempPassword]
  {
    Mail(cfg.emailFrom, studentEmail, None, ResetSubject, [studentName, tempPassword])
  }

  /** The message of an admin mail and of a student mail is rewritten the same way and keeps its text. */
  lemma MessageKeepsText(cfg: Config, email: string, name: string, subject: string, message: string)
    ensures AdminToStudentMail(cfg, email, name, subject, message).body[1] ==
            StudentToAdminMail(cfg, email, name, subject, message).body[3]
    ensures '\n' !in message ==> AdminToStudentMail(cfg, email, name, subject, message).body[1] == message
  {
    if '\n' !in message {
      NewlinesToBrIdentity(message);
    }
  }
}
